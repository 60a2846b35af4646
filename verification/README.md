# Verified model of the EFI utilities

The repository is a set of EFI shell utilities. Its hard core is the ASN.1 toolchain of `listcerts`:
a compiler that turns ASN.1 type definitions into bytecode for a BER decoder, the decoder itself,
and a registry of object identifiers built by a script and searched at run time. Around it stand
smaller algorithms: the SMBIOS walk of `showfirmware`, the sorted hotkey ring of `showhotkeys`, and
the number formatting of `showedid`. This project models these in Dafny and proves what they
compute, what every run of them keeps, and where they do less than a reader of their documentation
might expect.

The modules follow the way data takes through the programs.

- **From notation to element trees.** `Syntax` holds type expressions, how they are written and the
  recursive descent; `Parser` is `parse_type` and `parse_compound` as a class with the action list
  and the reference counts it updates; `Definitions` is `parse`. `TypeIndex` treats the sorted index
  of type names; `FrontEnd` hands the trees on as a `Grammar`; `Addresses` shows that the model may
  tell elements apart by value where the compiler uses addresses.
- **From grammar to bytecode.** `Code` says what an element renders to, `Queue` in which order
  elements go out of line, and `Renderer` is `render` with both passes and the intrusive list they
  share. `Layout` types the flat table; `SupportedGrammars`, `RegularGrammars`, `Acyclic` and `Firm`
  hold the conditions under which the results about it apply, and `ReadableValues` says which values
  of a grammar can be told from their octets.
- **Bytecode at work.** `BerMachine` is one pass of the decoder as a function of its state,
  `Decoder` the decoder as a class with its three stacks, and `BerScan` the scan for the end of an
  element of indefinite length. `Safety` treats every run, `Nesting`, `Truncation` and `Roots`
  accepted runs, `Termination` the end of runs, `Correct` and `Depth` the runs over the encoding of a
  value (`Der`), with definite and indefinite lengths; `Events` says what an action is called with
  and what its reply does. `Skimming` and `Limits` say exactly when optional fields and loops go
  wrong, `Indefinite` what the indefinite form does to ANY, to primitive types and to a CHOICE.
  `Toolchain` joins compiler and decoder. `X509`, `X509Source` and `X509Machine` carry the
  certificate grammar of the repository, from its tokens to its machine, through all of this.
- **Object identifiers.** `Base128`, `OidCodec` and `OidRegistry`; `ShippedRegistry` holds the tables
  that come with the programs.
- **The other utilities.** `Ring` and `HotKeys`, `Smbios`, `Decimal`.

Everything outside is a parameter: what action functions return is an arbitrary function of the
calls made so far (`Env.reply`), the table `token_to_tag` an arbitrary function of tokens, `bsearch`
any function that finds, the sequence of firmware variables and the SMBIOS table arbitrary octets.
The calls of action functions and the lines printed are recorded as sequences. Cursors are integers:
listcerts/asn1_ber_decoder.h:24 makes `size_t` a signed long.

## Model

| member | source | states |
|---|---|---|
| `Correct.CompilerIsCorrect` | listcerts/asn1_compiler.c:1331-1554 | the code rendered for any regular grammar, run over the BER encoding of any readable value that nests at most ten deep, each constructed element in the definite or the indefinite form, is accepted exactly at the end of the input and has called exactly the actions of the value, in order, each on the contents octets of its own element with the true lengths of contents and header. An alternative of a CHOICE may be constructed, and the last may be ANY |
| `Depth.TenDeep` | listcerts/asn1_ber_decoder.c:292-303 | over the encoding of a readable value of a regular grammar, in either form, a run is accepted if and only if the value nests at most ten deep; otherwise it ends with an overflow of the stack |
| `ReadableValues.DerIsReadable` | listcerts/asn1_ber_decoder.c:369-424 | every value in the definite form is readable, if no CHOICE has ANY for an alternative, so that the two theorems above hold of every DER encoding; in the indefinite form a value is readable if no item begins with the octet 0, no absent field takes the octet 0 where nothing follows, and a chosen alternative leaves the match flag set |
| `RegularGrammars.AlternativeCode` | listcerts/asn1_compiler.c:1397-1421 | an alternative of a CHOICE, ANY and constructed types included, renders to one instruction, which an earlier match passes over if and only if it is not the first |
| `Indefinite.PrimitiveIsNeverIndefinite` | listcerts/asn1_ber_decoder.c:267-276 | where the length octet is 0x80, an instruction that takes the element stops the run for want of a constructed element if and only if the CONS bit of the identifier octet is clear |
| `Indefinite.UnsettledChoiceIsRefused` | listcerts/asn1_ber_decoder.c:357-361 | the valid machine of CHOICE { s SEQUENCE { a INTEGER OPTIONAL } } refuses the conforming 30 80 00 00: looking for the absent field in front of the end-of-contents octets makes it forget the match |
| `Indefinite.AnyTakesTheEnd` | listcerts/asn1_ber_decoder.c:226-345 | where ANY could be absent in front of the end-of-contents octets it takes them for an element, in any machine |
| `Indefinite.AnyIndefiniteCall` | listcerts/asn1_ber_decoder.c:314-340 | for ANY over an element of indefinite length the action is called with the length 128, whatever the contents are, and the end is looked for afterwards |
| `Indefinite.DerIsSteppedOver` | listcerts/asn1_ber_decoder.c:72-128 | the scan for the end of such an element steps over every element in DER that is not of 127 octets; the length octet 0x7f is refused as too long |
| `Indefinite.LengthIsBigEndian` | listcerts/asn1_ber_decoder.c:116-126 | the octets behind the count of a long-form length are that length, most significant octet first |
| `Events.MatchCalls` | listcerts/asn1_ber_decoder.c:314-327 | a tag-matching instruction calls its action with the identifier octet, the header length and the start of the element at the cursor; a negative reply stops the run with that reply, and only a negative reply does so |
| `Events.OtherCalls` | listcerts/asn1_ber_decoder.c:415-429 | END calls with tag 0 and the header and start of the element it closes, ACT with those of the element matched last, and neither heeds the reply |
| `Events.LongTagIsRefused` | listcerts/asn1_ber_decoder.c:235-239 | an instruction that looks at an identifier octet stops for a long tag if and only if its low five bits are all set |
| `Events.LongInputIsRefused` | listcerts/asn1_ber_decoder.c:207-208 | a run is refused for its size if and only if there are more than 65535 octets |
| `Octets.MatchingTags` | listcerts/asn1_ber_decoder.c:249-255 | an op tag matches its own octet and, if it is constructed, the same octet without the CONS bit, and no other |
| `Toolchain.CompileAndDecode` | listcerts/asn1_ber_decoder.c:177-440 | compiler and decoder run one after the other: no fault of the machine's own on any input, and on the encoding of any readable value the calls and the end that the value asks for |
| `Toolchain.Translate` | listcerts/asn1_compiler.c:609-625 | from tokens that plain definitions tile to a table that is a valid machine whenever it fits 256 entries; elements are queued once per address |
| `Toolchain.TranslatedStops` | listcerts/asn1_ber_decoder.c:210-440 | a machine compiled from definitions without OPTIONAL or DEFAULT on a definition or on anything repeated stops on every input, whatever the actions return |
| `Safety.EveryRun` | listcerts/asn1_ber_decoder.c:210-440 | on every input and after any number of passes, the open frames plus the openers skipped equal the static depth of the program counter and of the return points; no machine fault is ever reached; an accepted run stands at COMPLETE with both stacks empty and has skipped no opener |
| `Safety.RunKeeps` | listcerts/asn1_ber_decoder.c:210-440 | the same from any state on track, as the invariant all passes keep |
| `Truncation.AcceptedIsNested` | listcerts/asn1_ber_decoder.c:198-307 | on every input: the elements an accepted run has matched lie disjoint or inside each other's contents, each ending where its own header says or behind an end-of-contents pair, if and only if the run has never stacked an enclosing end that does not fit the 16 bits of the stack |
| `Nesting.UncutIsNested` | listcerts/asn1_ber_decoder.c:267-307 | the half that needs no such end, although short-form lengths are never compared with the enclosing end when read; an element ends behind an end-of-contents pair only if it is constructed |
| `Truncation.ShortIsNested` | listcerts/asn1_ber_decoder.c:206-207 | no accepted run over up to 65412 octets has cut an enclosing end, the complement of `Limits.LongDataIsAccepted` |
| `Truncation.ShortNeverCuts` | listcerts/asn1_ber_decoder.c:290-307 | no run at all over up to 65410 octets does |
| `Limits.LongDataIsAccepted` | listcerts/asn1_ber_decoder.c:290-307 | a run of a valid machine over 65413 octets is accepted although it matches an element of 127 declared octets as four, after its end 65536 was stacked as 0 |
| `Roots.RootIsWhole` | listcerts/asn1_ber_decoder.c:226-307 | for every constructed root, inline or out of line: an accepted run has matched the root from the first octet to the final cursor, where the root's own header puts its end, if and only if the input begins with its tag; otherwise it has matched nothing, which happens only to a root out of line on empty input or to an optional one |
| `Roots.EmptyInput` | listcerts/asn1_ber_decoder.c:226-237 | empty input is accepted if and only if the root is rendered out of line |
| `Roots.ConstructedIsRooted` | listcerts/asn1_compiler.c:1376-1554 | SEQUENCE, SEQUENCE OF and SET OF, directly or through references and IMPLICIT tags, render to code of the kind the results about roots speak of |
| `Limits.AcceptedEndsInside` | listcerts/asn1_ber_decoder.c:267-289 | an accepted run ends inside the input if and only if not: the input begins with the root and the root's short-form length reaches behind it |
| `Limits.AbsentReference` | listcerts/asn1_compiler.c:1464-1468 | an absent field that refers to a mandatory type is passed over if and only if it is the last of its element, its code has no inline element, and no CHOICE check in it is unsatisfied; otherwise no run over the input is accepted. Its own OPTIONAL does not show in its code |
| `Limits.InnerTagWins` | listcerts/asn1_compiler.c:1410-1412 | of two nested IMPLICIT tags on a primitive type the machine matches the inner one where the encoding has the outer one, so it matches what is encoded if and only if they are the same |
| `Limits.OptionalReferenceIsRefused` | listcerts/asn1_compiler.c:1464-1468 | a conforming value of SEQUENCE { a A OPTIONAL, b BOOLEAN } without `a` stops the valid machine of that grammar with a tag mismatch |
| `Limits.LastReferenceIsPassed` | listcerts/asn1_ber_decoder.c:226-237 | with the reference as last field the same octets are accepted |
| `Skimming.AbsentField` | listcerts/asn1_ber_decoder.c:226-265 | the statement of `Limits.AbsentReference` for any code that has to read something |
| `Skimming.LoopsForever` | listcerts/asn1_ber_decoder.c:369-424 | at the head of a loop, in front of an element none of the repeated instructions matches, the machine runs for ever if and only if the repeated code circles; otherwise it stops with a tag mismatch |
| `Skimming.CirclesUnlessEating` | listcerts/asn1_ber_decoder.c:226-265 | code that has to read something never circles; code that need not, and holds no CHOICE check, always does |
| `Skimming.SkimRun` | listcerts/asn1_ber_decoder.c:226-265 | the run over code in front of a foreign element, or at the end of the enclosing one, comes to the outcome computed from the code alone |
| `Skimming.PassesAtEnd` | listcerts/asn1_ber_decoder.c:226-237 | at the end of the enclosing element code is passed if and only if it has no inline element and no CHOICE check or something matched before |
| `Limits.OptionalItemsNeverStop` | listcerts/asn1_ber_decoder.c:369-424 | the valid machine of SEQUENCE OF INTEGER OPTIONAL never stops on 30 02 04 00 |
| `Termination.MachineTerminates` | listcerts/asn1_ber_decoder.c:210-440 | a machine whose loops all have to read something stops on every input |
| `TerminatingGrammars.CompiledTerminates` | listcerts/asn1_compiler.c:1376-1554 | so does the machine of every supported grammar whose repeated elements are mandatory |
| `Firm.RequiredRepeats` | listcerts/asn1_compiler.c:1049-1055 | the repeated elements are mandatory if no definition and nothing repeated in the notation is marked OPTIONAL or DEFAULT |
| `Decoder.Decoder.Decode` | listcerts/asn1_ber_decoder.c:177-440 | the decoder with its fields and stack arrays returns what the run of the machine returns, with the same calls and, if accepted, the same final state; what the machine returns is the subject of the rows above |
| `Decoder.Decoder.Pass` | listcerts/asn1_ber_decoder.c:210-440 | one round of the loop takes the fields from one machine state to the next |
| `BerScan.FindIndefiniteLength` | listcerts/asn1_ber_decoder.c:64-150 | the loop with its level counter yields the specified scan and the length between start and end |
| `BerScan.ScanIsDescent` | listcerts/asn1_ber_decoder.c:72-120 | the level counter does the work of recursive descent |
| `BerScan.ScanRefinesGrammar` | listcerts/asn1_ber_decoder.c:72-120 | the scan ends at `q` if and only if the octets up to `q` are well-formed BER elements, nested indefinite ones included, closed by end-of-contents |
| `BerScan.ScanStaysInside` | listcerts/asn1_ber_decoder.c:72-120 | octets at or behind the enclosing end have no influence on the scan and none behind the buffer is read |
| `Renderer.Renderer.RenderGrammar` | listcerts/asn1_compiler.c:1231-1369 | two passes over shared links and flags: they fail exactly on a SET, and the table is the main code, COMPLETE and each element of the final queue once, at the place its jumps name |
| `Renderer.Renderer.RenderElement` | listcerts/asn1_compiler.c:1376-1554 | one element puts out its specified code behind what is there, and queues what it calls |
| `Renderer.Renderer.RenderOutOfLineList` | listcerts/asn1_compiler.c:1331-1369 | the list is worked off although elements queue others meanwhile and links of the first pass are stale in the second |
| `Queue.OrderIsClosed` | listcerts/asn1_compiler.c:1331-1369 | the final queue holds no element twice and everything the machine calls |
| `SupportedGrammars.Compile` | listcerts/asn1_compiler.c:1294-1318 | a supported grammar never makes the compiler fail and yields a valid machine |
| `SupportedGrammars.RenderIsSound` | listcerts/asn1_compiler.c:1376-1554 | tags fit an octet and are never long ones, conditional instructions are skippable, action numbers exist |
| `Layout.MachineIsTyped` | listcerts/asn1_compiler.c:1376-1554 | every instruction of a compiled table lies inside it, names existing actions, and is followed, jumped from and returned to at matching static depths |
| `Layout.MachineIsOctets` | listcerts/asn1_compiler.c:1307-1318 | every entry of a compiled table fits the unsigned char it is emitted as |
| `SupportedGrammars.OneTable` | listcerts/asn1_compiler.c:1294-1318 | two valid machines compiled from one grammar have the same queue and the same table |
| `Acyclic.AcyclicIsFinite` | listcerts/asn1_compiler.c:1464-1468 | rendering ends for every grammar whose types refer to types of lower rank only |
| `Addresses.OneAddressEach` | listcerts/asn1_compiler.c:810-820 | in a parsed grammar different types and different children have disjoint ranges of addresses, and an address belongs to one element |
| `Addresses.QueuedByAddress` | listcerts/asn1_compiler.c:1481-1485 | queueing by value and queueing by address are the same at every moment |
| `Definitions.Parse` | listcerts/asn1_compiler.c:717-806 | parsing succeeds if and only if type definitions tile the token list, and then delivers their trees, their actions and their reference counts, whichever type of a name the library's search finds; every tree, nested ones included, shows class and number of the tag as it is written, by section 8.1.2.2 of X.690, and is constructed if it is written so |
| `TypeIndex.IndexFinds` | listcerts/asn1_compiler.c:690-715 | binary search in any index sorted by length and content of the names finds a type of a name if there is one |
| `Definitions.PrintedIsTiled` | listcerts/asn1_compiler.c:778-806 | the tokens of any well-formed definitions are tiled by exactly these definitions |
| `Parser.Parser.ParseType` | listcerts/asn1_compiler.c:828-1125 | reads a type exactly where the recursive descent does, builds its tree, and records its actions and references; behind `[ APPLICATION n ]`, `[ n ]`, `[ PRIVATE n ]` or `[ UNIVERSAL n ]` the tree has the octet n plus 0x40, 0x80, 0xC0 or 0 and is constructed unless IMPLICIT follows |
| `Parser.Parser.ParseCompound` | listcerts/asn1_compiler.c:1130-1193 | the same for the fields between braces |
| `Parser.Parser.AddAction` | listcerts/asn1_compiler.c:1077-1100 | a name goes in front of the first greater one unless it is there |
| `Syntax.TypeRead` | listcerts/asn1_compiler.c:828-1125 | what is read is the writing of a well-formed type up to a token that cannot continue it |
| `Syntax.TypeWritten` | listcerts/asn1_compiler.c:828-1125 | every writing of a well-formed type is read back as that type |
| `FrontEnd.ActionList` | listcerts/asn1_compiler.c:1077-1100 | the action list is strictly ascending and holds exactly the names met |
| `FrontEnd.ActionNumbers` | listcerts/asn1_compiler.c:1264-1288 | equal names get equal numbers, distinct names distinct ones, all below the count |
| `FrontEnd.RefCountsAreExact` | listcerts/asn1_compiler.c:987-999 | the reference count of a type is the number of reference elements that point to it, over all trees |
| `FrontEnd.CountsAreReferences` | listcerts/asn1_compiler.c:987-999 | and the number of references to it in the grammar the renderer is given |
| `FrontEnd.ChoiceFlags` | listcerts/asn1_compiler.c:1160-1177 | alternatives are all skippable and all but the first conditional |
| `FrontEnd.ParsedIsOk` | listcerts/asn1_compiler.c:828-1193 | plain definitions parse to grammars the renderer supports |
| `FrontEnd.TagsAreMatched` | listcerts/asn1_compiler.c:845-960 | the code of such a tree matches that octet plus 0x20, and plus 0x20 only for a constructed type behind IMPLICIT |
| `X509.X509MeetsAll` | listcerts/x509.asn1:5-65 | the certificate grammar is acyclic, supported, regular and terminating |
| `X509Source.DefsMeanX509` | listcerts/x509.asn1:5-65 | the front end yields that grammar from the definitions of the file: the 13 action numbers, the type numbers, the addresses and the reference counts are computed |
| `X509Source.SourceIsTranslatable` | listcerts/x509.asn1:5-65 | so the tokens of the file satisfy what `Toolchain.Translate` asks for, with that grammar |
| `X509Machine.TableSize` | listcerts/x509.asn1:5-65 | the table of the file has 111 entries: 66 of main code, COMPLETE, and 44 out of line |
| `X509Machine.MachineIsValid` | listcerts/x509.asn1:5-65 | with four elements out of line, in this order, and their places it is a valid machine |
| `X509Machine.CompileCertificates` | listcerts/x509.asn1:5-65 | the compiler, from the tokens of the file, emits exactly that table |
| `X509Machine.CertificatesAreDecoded` | listcerts/x509.asn1:5-65 | its run over the encoding of any readable certificate that nests at most ten deep is accepted at the end, with exactly the calls of the certificate's parts |
| `X509Machine.DerCertificatesAreReadable` | listcerts/x509.asn1:5-65 | every certificate in DER is readable |
| `X509Machine.CertificatesStop` | listcerts/x509.asn1:5-65 | on every input and whatever the actions return it stops without a fault of its own |
| `X509Machine.TranslatedCertificatesStop` | listcerts/x509.asn1:5-65 | the same end as an instance of `Toolchain.TranslatedStops` |
| `OidRegistry.Build` | listcerts/build_oid_registry_data.py:56-195 | the emitted index, data and search table cut out, hash and order the encodings of the given identifiers, if these have at most 65535 octets together |
| `OidRegistry.LookupOid` | listcerts/oid_registry.c:31-98 | the binary search returns the number of an identifier with these octets if there is one, else the count; with distinct encodings it is linear search |
| `OidRegistry.FoldWraps` | listcerts/oid_registry.c:40-45 | whether the hash sum has wrapped around at 32 bits does not change the folded octet |
| `OidRegistry.BuilderHash` | listcerts/build_oid_registry_data.py:123-135 | the script's unbounded hash is the 32-bit hash of the search: the exclusive-or of the four octets of the length less one and 33 times the total of the octets, bit by bit |
| `OidRegistry.SearchHash` | listcerts/oid_registry.c:38-45 | the loop of the search computes the same octet in 32 bits |
| `OidRegistry.HashIsUnique` | listcerts/oid_registry.c:38-45 | no other number is that exclusive-or |
| `ShippedRegistry.ShippedIsBuilt` | listcerts/oid_registry_data.h:5-172 | the shipped index, data and search table are what the builder means for the 52 identifiers in the comments of listcerts/oid_registry.h, and all encodings differ, so that the search finds each under its own number |
| `OidRegistry.CompareOids` | listcerts/build_oid_registry_data.py:156-170 | the sort block orders by hash, then length, then content from the end |
| `OidRegistry.EncodingsAreDistinct` | listcerts/build_oid_registry_data.py:97-118 | distinct identifiers with second component below 40 have distinct encodings |
| `OidCodec.RoundTrip` | listcerts/oid_registry.c:112-154 | the text printed for what the builder encoded is the dotted text of the identifier if and only if its second component is below 40 and the later ones are below 2^63 |
| `OidCodec.LargeIsNegative` | listcerts/oid_registry.c:146 | the component 2^63, read into 64 unsigned bits and printed by a signed conversion, comes out as -2^63 |
| `OidCodec.DottedIsInjective` | listcerts/oid_registry.c:125-146 | different lists of numbers have different dotted texts |
| `OidCodec.EncodeIsInjective` | listcerts/build_oid_registry_data.py:97-118 | identifiers with different components have different encodings |
| `OidCodec.SprintOid` | listcerts/oid_registry.c:121-153 | the loop prints the components of the specified decoding, accumulated in 64 bits and printed as signed numbers, and refuses exactly empty data and data cut off inside a component |
| `OidCodec.ComputeSize` | listcerts/build_oid_registry_data.py:62-75 | the length computed beforehand with logarithms is the length of the encoding |
| `Base128.EncodeMeans` | listcerts/build_oid_registry_data.py:107-114 | the octets built for a component are a minimal base-128 subidentifier whose value is that component |
| `Base128.EncodeIsUnique` | listcerts/build_oid_registry_data.py:107-114 | they are the only minimal subidentifier of that value |
| `Base128.GroupsFit` | listcerts/build_oid_registry_data.py:107-109 | the integer binary logarithm divided by seven counts the groups before the last octet |
| `Base128.Log2IsFloor` | listcerts/build_oid_registry_data.py:107-109 | the exponent the sizes are computed from is the integer part of the binary logarithm |
| `Base128.EncodeComponent` | listcerts/build_oid_registry_data.py:107-114 | the loop from the highest group down yields that encoding |
| `Ring.SwapListEntries` | showhotkeys/efilink.c:98-138 | two entries of a ring exchange their places wherever they stand, adjacent ones included, and all others keep theirs |
| `Ring.RemoveEntryList` | showhotkeys/efilink.c:139-148 | the ring closes behind the entry and the next entry is returned |
| `HotKeys.ShowHotKeys` | showhotkeys/showhotkeys.c:231-289 | a name is printed once for each variable of the global GUID that has it, if it has seven characters and begins with Key, and no other name is; sorted, the names ascend by option number, unsorted, the latest come first |
| `HotKeys.InsertHotKey` | showhotkeys/showhotkeys.c:258-273 | swapping links bubbles a new entry to its place in the sorted ring |
| `HotKeys.SortedHotKeys` | showhotkeys/showhotkeys.c:258-273 | the list is ascending by option number, holds exactly the names met, and holds the names of each number in the reverse of the order they were met in |
| `HotKeys.CompareOptionNumbers` | showhotkeys/showhotkeys.c:121-149 | the 16-bit comparison orders by option number; nothing wraps around |
| `HotKeys.OrderIsHexOrder` | showhotkeys/showhotkeys.c:121-149 | two keys are in the order of their hexadecimal numbers if and only if the first digits that differ with A to F read as 0 to 5 and the first that differ at all differ in the same direction, or there are none of either |
| `HotKeys.DecimalOrder` | showhotkeys/showhotkeys.c:121-149 | between names whose digits are no letters those first differences always agree |
| `HotKeys.OrderIsNotHexOrder` | showhotkeys/showhotkeys.c:121-149 | Key000A sorts before Key0001 |
| `Smbios.StringOfStructure` | showfirmware/showfirmware.c:42-68 | a string is found by its number, a missing one is answered with the end of the structure, and a structure without strings answers number one with an empty string |
| `Smbios.HandlesChain` | showfirmware/showfirmware.c:74-115 | asking for the handle of a structure yields exactly its octets and the handle of the next one |
| `Smbios.UnknownHandle` | showfirmware/showfirmware.c:74-115 | asking for a handle no structure has fails |
| `Smbios.VisitsInOrder` | showfirmware/showfirmware.c:167-200 | on a well-formed table the program looks at the structures in order, each once, up to the first of type 0 |
| `Smbios.FindBios` | showfirmware/showfirmware.c:167-200 | the loop over the handles looks at the specified structures |
| `Smbios.GetStructure` | showfirmware/showfirmware.c:74-115 | the loop over the table computes the specified answer |
| `Decimal.IntegerToAscii` | showedid/showedid.c:33-69 | the buffer gets the canonical decimal and a terminator, reversed in place, and keeps everything else |
| `Decimal.TextParses` | showedid/showedid.c:33-69 | that text is canonical and reads back as the number |
| `Decimal.DigitsAreUnique` | showedid/showedid.c:33-69 | no other canonical decimal stands for the number |
| `Decimal.FloatToAscii` | showedid/showedid.c:75-133 | zero, refused magnitudes and all others give the specified text: digits, a point, and behind it exactly as many digits as were asked for, none for a negative count, or a single zero if the number is whole, then the terminator |
| `Decimal.FloatBound` | showedid/showedid.c:75-133 | with k decimals asked for, the printed decimal is at most the magnitude, and the magnitude is less than 10^-k above it, plus 2^-24 for negative exponents; a whole number is printed exactly |
| `Decimal.WholeHasNoFraction` | showedid/showedid.c:107-116 | the fraction kept is zero if and only if the number is whole |

## Left out

- Toolchain.Translate: termination of rendering is a hypothesis (`AllFinite`); `Acyclic.AcyclicIsFinite` gives it for acyclic references, and for cyclic references rendered inline the C code recurses without end.
- Definitions.Parse: `qsort` and `bsearch` are taken by their specifications: what the search finds is a parameter that returns a type of the name if there is one. Which of two types with one name it is stays open, as it does in the C code.
- Decoder.Decoder.Decode: speaks of runs that stop; which runs do is the subject of `Termination` and `Skimming`.
- Correct.CompilerIsCorrect: for regular grammars, in which the optional fields of a SEQUENCE can be told from what follows, the alternatives of a CHOICE have tags of their own except that one may be ANY, none of them is a bare reference or a CHOICE, no IMPLICIT tag is nested in another, and no OPTIONAL stands on a bare reference. Regularity is a condition on the parsed grammar, not on its notation. Readability is sufficient, not necessary: a CHOICE that has forgotten its match goes on all the same if it is optional. ANY itself has definite length; what the indefinite form does there is in `Indefinite`.
- Events.MatchCalls: the tag an ACT or END passes on is no part of the calls `Correct.CompilerIsCorrect` compares, since behind a constructed element it is that of whatever was looked at last.
- OidCodec.RoundTrip: identifiers whose first two components do not fit their common octet are not encoded.
- OidRegistry.Build: Perl's library sort is modelled by insertion sort with the same comparison block; duplicate identifiers keep an order of their own.
- Decimal.FloatToAscii: exponents 24 to 30 make the C code shift by a negative amount, and are excluded; so is the most negative integer in `Decimal.IntegerToAscii`, whose negation overflows. With a fraction and more than 127 decimals the signed `char` counter never reaches the bound and the C loop runs out of the buffer; the model asks for at most 127 decimals then, and for a buffer that holds the text.
- Elements are values that carry their address instead of heap objects; the reference counts and the renderer's links are maps and sequences beside them.
- A type reference whose own name token had a non-zero tag: `token_to_tag` is zero for type names, so the branch that renders a tag for it is not modelled.
- The tokeniser, the text layout of the emitted files, their headers and comments, and all messages.
- The jump targets of EXTERNAL and SET: the compiler exits on SET, and EXTERNAL has no children to match; grammars with either are outside `Supported`.
- DER lengths from 2^24 on: the decoder refuses inputs above 65535 octets.
- Object identifiers of more than 2^32 octets in the 32-bit loop counter of the hash, and the buffer limit of `Sprint_OID`: the model prints into a buffer that is large enough, so -ENOBUFS does not occur.
- Firmware calls, memory allocation failures, the printing of EDID and SMBIOS fields, the certificate listing of `listcerts.c`, and the utilities without algorithms of their own.
- The comment at listcerts/asn1_ber_decoder.c:244-248 says the CONS bit of the data is free where the op tag lacks it and mandatory otherwise; the code does the opposite, and the model follows the code.
- The comment at listcerts/build_oid_registry_data.py:152 names length as the first key of the search order; the code of both sides takes the hash first, and the model follows the code.
- The check for an empty compound in `parse_compound` looks for a second opening brace; `{}` is refused later, as a missing type, and the model follows that.
