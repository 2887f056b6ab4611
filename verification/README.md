# Verified models of keripy's version codec, spec-example tools and ACDC registry log

This project models four parts of keripy in Dafny and proves what they are for.

* **The version string and the stream sniffer** (`src/keri/kering.py`): `VersionStrings` holds the two header
  layouts position by position, the leftmost-first search, `versify`, `rematch`, `deversify` and `smell`;
  `VersionCodec` and `Sniffing` prove that printing and parsing are mutual inverses and that smelling is
  unambiguous, local and stable. `Numerals` and `Helping` cover the hexadecimal and Base64 numerals. The Base64
  alphabet is that of section 5 of RFC 4648.
* **The auto-tagger** (`tools/tag_spec_examples.py`): `Text`, `Fences` and `Tagging` model lines, fences and the
  run, `Markers` the lines a marker is written as; `Reparsing` proves that inserting lines above fences preserves the
  parse of the document, `Selection` which fences are marked and warned of, `Convergence` how often the tagger has to be
  repeated.
* **The drift checker** (`tools/check_spec_examples.py`): `Values`, `Diffing`, `Rendering` and `Drift`; `DiffOrder`
  gives the order of the differences, `DriftReport` the report line by line, and `Agreement` relates the two tools.
* **The registry log** (`src/keri/acdc`): `RegistryTables` and `RegistryStore` are the six tables and the store
  with its history, `RegistryRuns` and `InsertionSets` what holds of every run of store operations.
  `RegistryRules` states the rules of a registry's event chain, `RegistryProtocol` the decisions of the event
  engine as functions of the tables, `RegistryInvariants` what they keep, `RegistryEvents` the engine itself, a
  class whose methods are proved equal to those functions, with `RegistryDigest` and `RegistryAnchors` on its digest
  and on anchors during a sweep. `RegistryDelivery`, `RegistryApart`, `DeliveryOrder` and `Arrivals` are about whole
  runs of any number of engines that share one store. `Arbitration` is about races between events for one place in
  the log, `Sweeps` tells the log after a whole pass over the escrows from the tables before it, and `Races` says when
  the two escrows settle their races alike. `RegistryCalls` says when the public calls refuse and what they record,
  `Escrows` what becomes of the entries a pass does not log.

`KeyOrder` and `Outcomes` are shared helpers (sorting, optional values and results). `dafny verify dfyconfig.toml`
checks everything.

## How the source is read

Bytes are characters; a byte string is a string, over more characters than 256, so everything holds for bytes.
A version's sizes and minors are integers without a bound, and their widths are what the theorems are about.
Parsing a fence body (`json.loads`, `ast.literal_eval`) is a parameter `parse` that may fail. Numbers in values
are integers, floats as real numbers, infinities or NaN, and booleans, compared as Python compares them.
The tables follow `src/keri/db/dbing.py`: put inserts if absent, pin overwrites, escrow sets keep insertion order.

The engine is proved against a *world*: the event each SAID digests, and the seals the key event log bears out.
Digests are taken not to collide, and `Sound` says that a verified seal is a real one; the key event log may
differ from call to call. Nothing else is assumed of it: what it finds or verifies is arbitrary.

## Where the code and its documentation differ

* The tagger is documented as idempotent (lines 2-14). It is not when two fences match one name, since a fence
  that already has a marker does not reserve its name, nor when the last line of a marker is not recognised, as with
  a name that holds a '>' or, mostly, a newline. `Idempotent` and `Converges` give the exact condition for names whose
  marker has no line that opens a fence, `TagFixpoint` says for all names when a text is stable;
  `TwinsAreTaggedOneByOne`, `NewlineNameNeverSettles` and `FenceNameSwallows` are inputs.
* The checker compares leaves with `!=`, so a NaN differs from itself, while the tagger's `==` on whole dicts takes
  a NaN as equal to itself by identity. `DiffEmptyExact`, `ChosenIsInSync` and `ChosenIsNotFlagged` carry the
  condition, `NaNIsReported` an input.
* Reported paths are meant to locate a difference, but two reports can print one path (`ReportsCollide`).
  `RenderInjectiveExact` says exactly for which keys they do not.
* The head table is documented as the cached tip of the log (`src/keri/acdc/regbasing.py`, lines 40-54). `accept`
  keeps it so exactly under the condition of `AcceptKeepsHead`; `HeadCanDisagree` is a run that breaks it. Through
  the engine it always holds (`EveryRunIsChained`).
* The engine's `regd` is documented as the accepted head's SAID. It is not after an unbound engine has put its
  inception aside (`StagedInceptionIsNoHead`), nor after an event logged below the head is repeated
  (`RepeatedInceptionIsNoHead`). `RegdExact` and `AnchorRegdExact` are the exact condition, read off the state before
  the call; a pass over the escrows makes `regd` the head again or moves neither (`RegEventer.ProcessEscrows`).
* The two escrows are documented to resolve races identically (`src/keri/acdc/regeventing.py`, lines 1286-1287). Each
  takes the earliest anchor among its own (`DrainWinner`, `SweepWinner`), but a pass drains the queue behind each
  commit, before the escrowed rivals' turn. `SweepExact` tells the whole log after a pass, `SweepIsFair` says that it is
  the log of one common contest exactly when at every slot the queue's winner comes before all that wait for a seal;
  `QueuedRivalWins` is a run from an empty database that breaks it.

## Model

| member | source | states |
|---|---|---|
| `VersionCodec.VersifyDeversify` | src/keri/kering.py:141-210 | Printing then parsing returns the fields given to `versify` exactly when every field fits its width, and a VersionError otherwise, in both layouts and with any bytes behind the header. Version 1 reports no genus version; version 2 reports the protocol version where none was given. |
| `VersionCodec.DeversifyVersify` | src/keri/kering.py:80-138 | Whatever `deversify` accepts has canonical fields, and printing them gives back the accepted bytes, 17 or 19 of them. |
| `VersionCodec.DeversifyExact` | src/keri/kering.py:181-210 | `deversify` accepts a byte string with result s exactly when s is canonical and the string starts with the text of s. |
| `VersionCodec.PrefixFree` | src/keri/kering.py:30-64 | No valid version string is a proper prefix of another, within a layout or across the two. |
| `VersionCodec.DeversifyFaults` | src/keri/kering.py:80-138 | On a match of either layout each refusal occurs exactly on its condition, in this priority: unknown protocol, wrong major version, unknown kind (version 1 refuses CESR). |
| `VersionCodec.DeversifyUnmatched` | src/keri/kering.py:200-210 | A string that neither layout matches at its start is refused with a VersionError. |
| `VersionCodec.Matches1Exact` | src/keri/kering.py:41-45 | Which bytes match version 1: four capitals, two hexadecimal digits, four capitals, six hexadecimal digits, an underscore, each class given by its list of characters. |
| `VersionCodec.Matches2Exact` | src/keri/kering.py:47-56 | Which bytes match version 2: four capitals, six Base64 digits, four capitals, four Base64 digits, a dot. |
| `VersionCodec.VersifyFaults` | src/keri/kering.py:141-178 | When `versify` refuses and with which error: a protocol or kind that is not in the list, CESR in version 1, a genus version that differs from a version 1 protocol version, a major version out of range. In all other cases it prints. |
| `VersionCodec.Version1Text` | src/keri/kering.py:168 | The printed version 1 string position by position: protocol, two hexadecimal digits, kind, six hexadecimal digits that stand for the size, underscore. |
| `VersionCodec.Version2Text` | src/keri/kering.py:170-175 | The printed version 2 string position by position, in Base64, with the genus version or else the protocol version behind the protocol version. |
| `VersionCodec.Version1Written` | src/keri/kering.py:168 | The printed version 1 string whether its fields fit or not: hexadecimal numerals with a sign, as long as the number needs, the size padded to six places. |
| `VersionCodec.Version2Written` | src/keri/kering.py:170-175 | The printed version 2 string likewise: Base64 numerals padded to two and four places. |
| `VersionCodec.FittingTerminates` | src/keri/kering.py:141-178 | Calls whose fields fit return: only a version 2 field below zero keeps `versify` from returning. |
| `VersionCodec.Misfit1` | src/keri/kering.py:141-178 | A version 1 header printed from a field too wide is matched by neither pattern at offset 0, whatever follows it. |
| `VersionCodec.Misfit2` | src/keri/kering.py:141-178 | The same for version 2, for any surplus of minor or size digits. |
| `Numerals.ReadPrint` | src/keri/kering.py:168-175 | Reading a padded hexadecimal, decimal or Base64 numeral gives the number printed. |
| `Numerals.PrintRead` | src/keri/kering.py:80-138 | Printing the value of a numeral at its own width gives the numeral back. |
| `Numerals.PrintWidth` | src/keri/kering.py:168-175 | A number keeps to the width it is padded to exactly when it is below base^width: 16^6 and 64^4 for sizes, 16 and 64^2 for minor versions. |
| `Numerals.DigitsExact` | src/keri/help/helping.py:263-269 | The digit of value d is the d-th character of its alphabet, written out. |
| `Numerals.IsDigitExact` | src/keri/kering.py:45-56 | A character is a digit exactly when it occurs in the alphabet, written out. |
| `Numerals.PrintWrites` | src/keri/kering.py:168-175 | The digit at place i from the right is the one for n / base^i modulo base. |
| `Numerals.PrintWritesPadded` | src/keri/kering.py:168-175 | A numeral has its width or, if the number needs more, as many digits as that takes. |
| `Helping.IntToB64` | src/keri/help/helping.py:279-292 | The digit loop followed by left padding computes the most-significant-first Base64 numeral of at least l digits; l = 0 gives the empty string. |
| `Helping.B64ToInt` | src/keri/help/helping.py:302-312 | The accumulating loop reads exactly the Base64 numeral, and refuses the empty string and foreign characters with different errors. |
| `Sniffing.MatchesNeverOverlap` | src/keri/kering.py:41-58 | Two matches of the two patterns in one byte string are the same match or lie apart, at every shift, not only at shifts up to 8. |
| `Sniffing.SmellFound` | src/keri/kering.py:213-235 | The leftmost-first search finds the match at offset 8 or less, if there is one. |
| `Sniffing.SmellIsDeversify` | src/keri/kering.py:213-235 | A match at offset o <= 8 makes `smell(raw)` equal to `deversify(raw[o:])`, including the error. |
| `Sniffing.SmellMisses` | src/keri/kering.py:213-235 | With at least 27 bytes and no match at offset 8 or less the answer is a VersionError. |
| `Sniffing.SmellShort` | src/keri/kering.py:227-228 | `smell` asks for more bytes, with a ShortageError, exactly when there are fewer than 27. |
| `Sniffing.SmellExact` | src/keri/kering.py:213-235 | `smell` returns s exactly when there are at least 27 bytes and the text of canonical s starts at an offset of at most 8. |
| `Sniffing.SmellUnambiguous` | src/keri/kering.py:213-235 | After any prefix of at most 8 bytes and before any suffix, `smell` returns the fields of the version string that was printed. |
| `Sniffing.SmellStable` | src/keri/kering.py:63-64 | Appending bytes to a raw of at least 27 never changes the result or the error. |
| `Sniffing.SmellLocal` | src/keri/kering.py:213-235 | The result depends on the first 27 bytes only. |
| `Text.JoinSplit` | tools/tag_spec_examples.py:73-110 | Joining the lines of a text gives the text. |
| `Text.SplitJoin` | tools/tag_spec_examples.py:73-110 | Splitting joined newline-free lines gives the lines. |
| `Text.SpaceExact` | tools/tag_spec_examples.py:63 | The characters that stripping removes, written out. |
| `Fences.MarkerRecognised` | tools/tag_spec_examples.py:32 | The marker written for a name is recognised as a marker exactly when the name has no '>'. |
| `Fences.OpenExact` | tools/tag_spec_examples.py:30 | A line opens a fence with language w exactly when it is blanks, three backticks, blanks, w, blanks, and w is `json` or `python` in any case. |
| `Fences.CloseExact` | tools/tag_spec_examples.py:31 | A line closes a fence exactly when it is blanks, three backticks, blanks. |
| `Fences.MarkerExact` | tools/tag_spec_examples.py:32 | A line is a marker exactly when it is white space, the opening of a comment, white space, `example:`, a text without `>`, the end of the comment, white space. |
| `Fences.FindBlocks` | tools/tag_spec_examples.py:41-57 | The nested index loops yield exactly the blocks of the one-pass two-state scanner. |
| `Fences.ScanFinds` | tools/tag_spec_examples.py:41-57 | The scanner's blocks are ordered and disjoint, each body holds no closing line, and every closable opening line met outside a block starts one. |
| `Fences.BlocksExact` | tools/tag_spec_examples.py:41-57 | A list of blocks has those properties exactly when it is the list found. |
| `Fences.AlreadyTagged` | tools/tag_spec_examples.py:60-66 | True exactly when the nearest non-blank line above the fence is a marker. |
| `Tagging.Choose` | tools/tag_spec_examples.py:76-104 | The selection loop returns, with its warnings, the first unmarked uniquely matching fence of each name. |
| `Tagging.FirstPerNameExact` | tools/tag_spec_examples.py:95-104 | A candidate is chosen exactly when its name is unused and no earlier candidate has that name. |
| `Tagging.InsertMarkers` | tools/tag_spec_examples.py:106-108 | The bottom-up in-place insertion equals one simultaneous merge of the markers into the original lines. |
| `Tagging.Tag` | tools/tag_spec_examples.py:69-110 | The whole run: new text, tagged names and warnings as functions of the manifest and the text. |
| `Selection.ChosenRight` | tools/tag_spec_examples.py:81-104 | A chosen fence has a dict value equal to exactly one dict of the manifest, whose name it gets, and had no marker: the safety rule of lines 10-11. |
| `Selection.TwinEntriesAreSkipped` | tools/tag_spec_examples.py:91-94 | Two equal dicts in the manifest are never used: every chosen fence equals some third one. |
| `Selection.NamesForExact` | tools/tag_spec_examples.py:88 | The names matched are those of the dict blocks equal to the value. |
| `Selection.TargetsExact` | tools/tag_spec_examples.py:71-72 | The targets are the dict entries of the manifest, all of them and in its order. |
| `Selection.NamesForPlaces` | tools/tag_spec_examples.py:88 | They come in the order of the manifest, one for every dict equal to the value. |
| `Selection.RightIsChosen` | tools/tag_spec_examples.py:81-104 | A fence is marked with a name if its value is a dict equal to just one dict of the manifest, of that name, it has no marker, and no fence above it is such a fence for that name. |
| `Selection.ChosenIsRight` | tools/tag_spec_examples.py:81-104 | And only then. |
| `Selection.WarningsExact` | tools/tag_spec_examples.py:91-101 | A warning is given exactly for the fences whose dict equals several manifest dicts, with their names, and for those whose name an earlier fence has taken, each with the line of the fence. |
| `Selection.WarningsAscend` | tools/tag_spec_examples.py:81-101 | The warnings come in the order of the lines, at most one for a fence. |
| `Markers.MergedLines` | tools/tag_spec_examples.py:106-110 | The lines of the new text are the old ones with every marker's lines, one or several, above its fence. |
| `Markers.OneLineMarker` | tools/tag_spec_examples.py:32 | The marker of a name without a newline is one line, opens no fence, and is recognised exactly without a '>'. |
| `Reparsing.InterleaveKeeps` | tools/tag_spec_examples.py:106-110 | Every original line is in the output, shifted by the number of lines inserted at or above it. |
| `Reparsing.InterleaveMarks` | tools/tag_spec_examples.py:106-110 | The lines of each marker stand right above their fence. |
| `Reparsing.UndoInterleave` | tools/tag_spec_examples.py:106-110 | Deleting the inserted lines gives back the original lines. |
| `Reparsing.BlocksMove` | tools/tag_spec_examples.py:41-57 | Re-parsing the output finds the same blocks in the same order with the same language and body, each index shifted by the lines inserted at or before it, if no inserted line opens a fence; an unclosed last fence is covered. |
| `Reparsing.TaggedKept` | tools/tag_spec_examples.py:60-66 | A fence that got no marker is marked afterwards exactly if it was before. |
| `Reparsing.TaggedNew` | tools/tag_spec_examples.py:60-66 | A fence that got lines above it counts as marked exactly when the last of them is a marker. |
| `Markers.MarkedIsTagged` | tools/tag_spec_examples.py:60-66 | A fence that got a name's marker counts as marked exactly when the marker's last line is recognised. |
| `Convergence.TagLines` | tools/tag_spec_examples.py:106-110 | For every manifest the lines of the new text are the old lines with the markers' lines above their fences; if none of these opens a fence, the blocks are the moved blocks. |
| `Convergence.UntagText` | tools/tag_spec_examples.py:106-110 | For every manifest, deleting the inserted lines from the new text gives back the old text. |
| `Convergence.TagCounts` | tools/tag_spec_examples.py:81-110 | One run lowers the number of unmarked matching fences of a name by one, unless it is 0 or the last line of the name's marker is not recognised. |
| `Convergence.TagFixpoint` | tools/tag_spec_examples.py:81-110 | For every manifest a run changes nothing exactly when no name has an unmarked matching fence. |
| `Convergence.RoundsCount` | tools/tag_spec_examples.py:81-110 | How many are left for each name after r runs. |
| `Convergence.Converges` | tools/tag_spec_examples.py:81-110 | After r runs the document is stable exactly when no name had more than r unmarked matching fences and none whose marker is not recognised had any. |
| `Convergence.Idempotent` | tools/tag_spec_examples.py:2-14 | The documented idempotence holds exactly when every name has at most one unmarked matching fence, and a name whose marker is not recognised has none. |
| `Convergence.TwinsAreTaggedOneByOne` | tools/tag_spec_examples.py:96-101 | A document with two equal fences needs two runs: the documented idempotence fails on it. |
| `Convergence.NewlineNameNeverSettles` | tools/tag_spec_examples.py:106-108 | A name with a newline and a single fence: every run changes the text again. |
| `Convergence.FenceNameSwallows` | tools/tag_spec_examples.py:106-108 | A name with a line that opens a fence: after one run the marked fence is no block any more. |
| `Diffing.DiffEmptyExact` | tools/check_spec_examples.py:103-135 | No difference is reported exactly when the two values are equal as Python compares them and hold no NaN. |
| `Diffing.DiffEmptySymmetric` | tools/check_spec_examples.py:103-135 | Whether anything is reported does not depend on which side is the manifest. |
| `Diffing.DiffExact` | tools/check_spec_examples.py:103-135 | A difference is reported exactly when following its path in both values leads to that disagreement: a key on one side only, unlike types, unlike lengths, or unlike leaves. |
| `Diffing.DiffDistinct` | tools/check_spec_examples.py:103-135 | No path is reported twice. |
| `DiffOrder.DiffOrdered` | tools/check_spec_examples.py:113-131 | The reports come in a fixed order: a value before what is below it, list items by index, and within a dict the missing keys, the unexpected ones, then the common ones, each sorted as Python sorts strings. |
| `Diffing.ComparableExact` | tools/check_spec_examples.py:106-108 | Two values have like types exactly when both are null, strings, lists or dicts, or both numbers, a boolean being a number. |
| `Diffing.NaNExact` | tools/check_spec_examples.py:133 | A value holds a NaN exactly when some path in it leads to one. |
| `Values.EqualNumbers` | tools/tag_spec_examples.py:88 | Integers, floats and booleans are equal exactly when their values are. |
| `Values.EqualSpecials` | tools/tag_spec_examples.py:88 | An infinity equals only itself, a NaN nothing, and no number anything that is not one. |
| `Values.EqualContainers` | tools/tag_spec_examples.py:88 | Strings, lists and dicts are equal exactly when their contents are; elements are compared by identity first, so a NaN inside counts as equal. |
| `Rendering.RenderCollides` | tools/check_spec_examples.py:116-123 | Two different paths can print the same text, because leading dots are stripped and keys are not quoted. |
| `Rendering.ReportsCollide` | tools/check_spec_examples.py:116-135 | Two dicts whose diff holds two reports that print the same path, the keys `a` and `.a`. |
| `Rendering.RenderInjectiveExact` | tools/check_spec_examples.py:116-130 | For a set of non-empty keys closed under taking parts, different paths print differently exactly when no key holds a dot and none is an index in brackets. |
| `Rendering.RenderSample` | tools/check_spec_examples.py:116-130 | A path of a key, an index and a key prints as `a[3].b`. |
| `Drift.ParseSpecBlocks` | tools/check_spec_examples.py:77-100 | The loop returns the first parseable match of each name and one error for every other match. |
| `Drift.FirstBlocksNames` | tools/check_spec_examples.py:86-99 | A name is in the result exactly when one of its matches parses. |
| `Drift.FirstBlocksValues` | tools/check_spec_examples.py:86-99 | Its value is that of its first parseable match. |
| `Drift.MatchesAccounted` | tools/check_spec_examples.py:77-100 | Blocks plus errors make up all the matches. |
| `Drift.NoErrorsExact` | tools/check_spec_examples.py:77-100 | There is no error exactly when every match parses and no name occurs twice. |
| `Drift.ErrorsExact` | tools/check_spec_examples.py:90-97 | The errors are those of the matches that yield no block, in their order: unparseable, or else a name that an earlier match has taken. |
| `Drift.Compare` | tools/check_spec_examples.py:138-167 | ok exactly when manifest and spec have the same names with equal NaN-free values, and exactly when the report is empty. |
| `Drift.ReportEmptyExact` | tools/check_spec_examples.py:138-167 | The report is empty exactly when the two sides are in sync. |
| `Drift.ReportFlags` | tools/check_spec_examples.py:154-164 | The report holds a mismatch line for a name exactly when both sides have it and their values differ or hold a NaN. |
| `DriftReport.MissingAndExtra` | tools/check_spec_examples.py:144-152 | A block is reported missing exactly when only the manifest has it, and extra exactly when only the specification has it. |
| `DriftReport.ReportSectioned` | tools/check_spec_examples.py:154-164 | Every mismatch line gives the number of differences of its block and is followed by exactly the first 40 of them, and by the number left over if there are more. |
| `DriftReport.ReportOrdered` | tools/check_spec_examples.py:141-155 | Missing blocks come first, then extra ones, then mismatches, each sorted by name. |
| `DriftReport.DetailsFollow` | tools/check_spec_examples.py:160-164 | No difference is listed outside the section of its block. |
| `Drift.Check` | tools/check_spec_examples.py:200-221 | The check passes exactly when every match yields a block and the blocks are in sync with the manifest; then there are as many matches as manifest entries. |
| `Agreement.ChosenIsInSync` | tools/tag_spec_examples.py:88-104 | The value of a fence the tagger marks gives no difference against the block of its name, exactly when that block holds no NaN: the two tools agree. |
| `Agreement.ChosenIsNotFlagged` | tools/check_spec_examples.py:155-158 | If the specification holds that value under that name, the whole report has a mismatch line for the name exactly when the manifest's block holds a NaN. |
| `Agreement.NaNIsReported` | tools/check_spec_examples.py:133 | A dict holding a NaN is equal to itself and still reported as different. |
| `RegistryStore.Store.PutEvent` | src/keri/acdc/registering.py:52-53 | Overwrites the body at the event's own SAID and touches nothing else. |
| `RegistryStore.Store.PutAnchor` | src/keri/acdc/registering.py:58-64 | Replaces a known anchor only by one with a smaller number, and says whether it did. |
| `RegistryStore.Store.HeadEvent` | src/keri/acdc/registering.py:69-71 | The body of the head, if there is one. |
| `RegistryStore.Store.SeqEvent` | src/keri/acdc/registering.py:76-78 | The body of the entry at a sequence number, if there is one. |
| `RegistryStore.Store.Accept` | src/keri/acdc/registering.py:80-84 | Stores the body, commits the slot if it is free, and always moves the head. |
| `RegistryStore.Store.EscrowMissingAnchor` | src/keri/acdc/registering.py:86-87 | Appends to the escrow list unless the SAID is there, and says which. |
| `RegistryStore.Store.EscrowOutOfOrder` | src/keri/acdc/registering.py:89-90 | The same for the other escrow. |
| `RegistryStore.Store.ClearEscrows` | src/keri/acdc/registering.py:92-94 | Removes one SAID from both escrows of one slot. |
| `RegistryStore.RegBaser.constructor` | src/keri/acdc/regbasing.py:93-115 | Opens the database on the six tables stored in it; a new one has them empty. |
| `RegistryStore.Store.constructor` | src/keri/acdc/registering.py:36-40 | A store over a database that a run of operations, empty for a new one, has brought where it is. |
| `RegistryRuns.LogSlots` | src/keri/acdc/registering.py:80-84 | After any run a slot is in the log exactly when some accept named it. |
| `RegistryRuns.LogWriteOnce` | src/keri/acdc/registering.py:80-84 | An entry is for ever the event of the first accept of its slot. |
| `RegistryRuns.NeverDangling` | src/keri/acdc/registering.py:80-84 | In every reachable state every SAID in the log and among the heads has a body, and each body is stored under its own SAID. |
| `RegistryRuns.BodyIsLast` | src/keri/acdc/registering.py:52-53 | The body stored under a SAID is that of the last put or accept of it. |
| `RegistryRuns.NoBody` | src/keri/acdc/registering.py:80-84 | Without one there is no body. |
| `RegistryRuns.OnlyAcceptCommits` | src/keri/acdc/registering.py:52-94 | Escrowing, anchoring and storing never alter log or heads. |
| `RegistryRuns.HeadIsLast` | src/keri/acdc/registering.py:80-84 | The head is the event of the last accept for the registry. |
| `RegistryRuns.NoHead` | src/keri/acdc/registering.py:80-84 | A registry without an accept has no head. |
| `RegistryRuns.FirstAcceptKeepsHead` | src/keri/acdc/registering.py:80-84 | On a registry without entries any accept leaves the head equal to the topmost entry. |
| `RegistryRuns.AcceptKeepsHead` | src/keri/acdc/registering.py:80-84 | With entries up to a top, an accept leaves the head equal to the topmost entry exactly when it is above the top or repeats the top's event. |
| `RegistryRuns.HeadCanDisagree` | src/keri/acdc/registering.py:80-84 | Accepting two different events at one slot leaves a head that is not in the log. |
| `RegistryRuns.StrictLog` | src/keri/kering.py:828-833 | When every accept uses the next sequence number, the accepted ones are 0..n-1 and the head is the entry at n-1. |
| `RegistryRuns.HeadsRebuildable` | src/keri/acdc/regbasing.py:40-54 | In such runs the head table is the only one that can be rebuilt from the log. |
| `RegistryRuns.EarliestAnchorWins` | src/keri/acdc/registering.py:58-64 | The stored anchor is the first put among those for the SAID with the least number. |
| `RegistryRuns.AnchorIsEarliest` | src/keri/acdc/registering.py:58-64 | And the put that is the first with the least number is the one stored. |
| `RegistryRuns.AnchorNumberOrderFree` | src/keri/acdc/registering.py:58-64 | Its number depends only on which anchors were put, not on when or how often. |
| `RegistryRuns.AnchorNumberFalls` | src/keri/acdc/registering.py:58-64 | Its number never increases and it never disappears. |
| `RegistryRuns.EscrowsFold` | src/keri/acdc/registering.py:86-94 | Every escrow list is the fold of its own slot's additions and removals. |
| `RegistryRuns.EscrowsExact` | src/keri/acdc/registering.py:86-94 | A SAID is in the list exactly when it has an addition not yet removed; the list is duplicate-free, in the order of those additions. |
| `InsertionSets.FoldExact` | src/keri/db/dbing.py:1176-1214 | The same for one insertion-ordered set. |
| `InsertionSets.RemMembers` | src/keri/db/dbing.py:1317-1366 | Removing one member removes it and no other. |
| `RegistryRules.CommitKeeps` | src/keri/acdc/regeventing.py:1114-1136 | Committing a ready event keeps every rule of the chain; only events queued right behind it may become ready. |
| `RegistryRules.ValidIsReady` | src/keri/acdc/regeventing.py:1056-1112 | An event that validates, of a free slot, anchored, and with a logged predecessor unless it is an inception, is ready to commit. |
| `RegistryRules.RipFaultExact` | src/keri/acdc/regeventing.py:136-172 | The shared rules for inceptions: each error exactly on its condition, and none exactly for an inception of the issuer at number 0. |
| `RegistryRules.UpdateFaultExact` | src/keri/acdc/regeventing.py:175-222 | The shared rules for updates likewise: type, registry, number, predecessor where it is known. |
| `RegistryRules.ValidExact` | src/keri/acdc/regeventing.py:1056-1112 | An event validates exactly when it fits the engine, its slot is free or its own, and the slot below a blindable update is free or held by the event it names. |
| `RegistryRules.MisfitRefused` | src/keri/acdc/regeventing.py:1080-1095 | The error for an event that does not fit: sequence number, issuer, registry, no inception yet, unsupported type, in the order of the checks. |
| `RegistryRules.FittingChecked` | src/keri/acdc/regeventing.py:1097-1112 | The error for one that fits: another event in its slot, or another predecessor than the logged one; and the entries reported for one that passes. |
| `RegistryInvariants.ContestKeeps` | src/keri/acdc/regeventing.py:1278-1312 | One pass over the slot after the head keeps the rules; it either leaves nobody queued there or extends the log by one. |
| `RegistryInvariants.ContestWinner` | src/keri/acdc/regeventing.py:1178-1192 | The queued event committed is the one whose seal comes before those of all others that still validate: the smaller number, then the smaller digest, then the smaller SAID, strings compared at their first difference; the order of the queue does not matter. |
| `RegistryProtocol.WinnerLessExact` | src/keri/acdc/regeventing.py:1192 | The order of the rivals is that of number, digest and SAID, without reference to its implementation. |
| `KeyOrder.StrLessExact` | src/keri/acdc/regeventing.py:1192 | A string is less than another exactly when it is a proper prefix or has the smaller character at the first difference. |
| `RegistryInvariants.ContestShrinks` | src/keri/acdc/regeventing.py:1278-1312 | Every pass that commits lowers the number of slots with queued events, so the loop ends. |
| `RegistryInvariants.DrainKeeps` | src/keri/acdc/regeventing.py:1268-1312 | When the loop ends, nothing that could be committed is left in the queue. |
| `RegistryInvariants.ProcessKeeps` | src/keri/acdc/regeventing.py:830-889 | Processing any genuine event keeps the rules, changes no entry or body, lets an anchor give way only to an earlier one, and leaves no anchored event waiting for an anchor. |
| `RegistryInvariants.ProcessLands` | src/keri/acdc/regeventing.py:830-889 | True exactly when the event was logged already, or has an anchor (known or found) and is an inception or follows a logged event; otherwise it is in the escrow of what it lacks. |
| `RegistryInvariants.AnchorMsgKeeps` | src/keri/acdc/regeventing.py:891-942 | Anchoring a message keeps the rules. |
| `RegistryInvariants.AnchorMsgLands` | src/keri/acdc/regeventing.py:901-903 | A message that was anchored is logged, or queued behind a missing predecessor; it never goes back to the missing-anchor escrow. |
| `RegistryDigest.RegdExact` | src/keri/acdc/regeventing.py:779-796 | After an event that is not refused the engine's digest is the accepted head exactly when, before the call, the event was the logged head; or was new, had a seal, known or to be found, and was an inception or followed a logged event; or was new and the digest was the head already. |
| `RegistryDigest.AnchorRegdExact` | src/keri/acdc/regeventing.py:891-942 | The same for a message that is anchored, which has its seal. |
| `RegistryDigest.StagedInceptionIsNoHead` | src/keri/acdc/regeventing.py:850-852 | An unbound engine given an inception whose seal is not visible yet takes an escrowed event as its digest. |
| `RegistryDigest.RepeatedInceptionIsNoHead` | src/keri/acdc/regeventing.py:854-858 | From an empty database: once an inception and an update are logged, repeating the inception takes the digest back from the head. |
| `RegistryDigest.ProcessFollows` | src/keri/acdc/regeventing.py:854-889 | Processing an event that is not logged makes the digest the accepted head, or moves neither. |
| `RegistryAnchors.RetrySlotAdds` | src/keri/acdc/regeventing.py:1245-1266 | Retrying a slot leaves every anchor as it is and adds new ones only to the events waiting there. |
| `RegistryAnchors.NextTurn` | src/keri/acdc/regeventing.py:1240-1244 | Until its slot's turn comes an escrowed event has no anchor, and so is not logged. |
| `RegistryInvariants.EscrowsKeep` | src/keri/acdc/regeventing.py:944-954 | A pass over the escrows keeps the rules and forgets nothing. |
| `RegistryEvents.RegEventer.constructor` | src/keri/acdc/regeventing.py:779-796 | A new engine over a store whose tables keep the rules. |
| `RegistryEvents.RegEventer.ValidateEvent` | src/keri/acdc/regeventing.py:1056-1112 | The checks in the source's order, each with its own fault. |
| `RegistryEvents.RegEventer.DiscoverAnchor` | src/keri/acdc/regeventing.py:1138-1176 | True exactly when the event has an anchor afterwards; a seal that does not verify is not stored. |
| `RegistryEvents.RegEventer.Commit` | src/keri/acdc/regeventing.py:1114-1136 | Accepts the event and empties both escrows of its slot, and no other. |
| `RegistryEvents.RegEventer.ReplayCandidate` | src/keri/acdc/regeventing.py:1194-1225 | Returns the event and its predecessor exactly when it can still be used, and otherwise only removes it from its escrows. |
| `RegistryEvents.RegEventer.Sn` | src/keri/acdc/regeventing.py:809-817 | The number of the accepted head, or -1. |
| `RegistryEvents.RegEventer.AdvanceSlot` | src/keri/acdc/regeventing.py:1287-1309 | The inner loop: drops candidates that cannot be replayed and commits the first that is ripe. |
| `RegistryEvents.RegEventer.ProcessQueued` | src/keri/acdc/regeventing.py:1268-1312 | The loop ends, and leaves the queue with nothing to commit; the digest becomes the head, or neither moves. |
| `RegistryEvents.RegEventer.TakeEvent` | src/keri/acdc/regeventing.py:854-889 | What happens to an event that has validated. |
| `RegistryEvents.RegEventer.ProcessEvent` | src/keri/acdc/regeventing.py:830-889 | A refused event leaves tables and fields as they were; otherwise tables, binding and digest are those of the pure step, and the digest is the head exactly in the cases of `RegdExact`. |
| `RegistryEvents.RegEventer.CheckMsg` | src/keri/acdc/regeventing.py:913-922 | The refusals that come before the anchor is looked at, in the source's order: unknown event, invalid event, half a couple. |
| `RegistryEvents.RegEventer.RecordAnchor` | src/keri/acdc/regeventing.py:924-938 | Searches for the anchor or checks the given one; a faulty one changes nothing. |
| `RegistryEvents.RegEventer.AnchorMsg` | src/keri/acdc/regeventing.py:891-942 | A refused call leaves no trace; an accepted one binds the engine to the event's registry, leaves tables and digest as the pure step says, and the digest at the head exactly in the cases of `AnchorRegdExact`. |
| `RegistryCalls.ProcessRefuses` | src/keri/acdc/regeventing.py:830-889 | `processEvent` refuses exactly what validation refuses, with the same error. |
| `RegistryCalls.ProcessRecords` | src/keri/acdc/regeventing.py:854-889 | It records the event and the seal found for it and nothing else, and nothing at all for one that is logged. |
| `RegistryCalls.AnchorMsgExact` | src/keri/acdc/regeventing.py:913-931 | Anchoring is refused exactly for an unknown event, one that does not validate, half a couple, a couple that does not verify, whatever is stored already, or no couple and no seal known or to be found, each with its own error. |
| `RegistryCalls.AnchorMsgRecords` | src/keri/acdc/regeventing.py:924-942 | It records the couple that is given, unless an earlier one is known, or else the seal that is found, and no body. |
| `RegistryProtocol.DiscoveredExact` | src/keri/acdc/regeventing.py:1138-1176 | A seal is found exactly when the key event log offers it and it verifies. |
| `RegistryEvents.RegEventer.GatherSlot` | src/keri/acdc/regeventing.py:1245-1256 | The first inner loop over one sequence number. |
| `RegistryEvents.RegEventer.RetryUsable` | src/keri/acdc/regeventing.py:1258-1266 | The second: the usable events are processed in winner order, and afterwards no anchored event waits; the digest becomes the head, or neither moves. |
| `RegistryEvents.RegEventer.ProcessMissingAnchors` | src/keri/acdc/regeventing.py:1227-1266 | All escrowed sequence numbers in ascending order, from a snapshot; the state rules hold again at the end, and the digest is the head or neither has moved. |
| `RegistryEvents.RegEventer.ProcessEscrows` | src/keri/acdc/regeventing.py:944-954 | Missing anchors first, then the queue. Afterwards the digest is the accepted head, or neither has moved: a commit repairs a digest that was not. |
| `RegistryDelivery.CallsKeep` | src/keri/acdc/registraring.py:45-46 | Every run of calls by any number of engines on one store, refused calls included, keeps the rules; entries and bodies once there never change, and an anchor only gives way to an earlier one. |
| `RegistryDelivery.BindingStays` | src/keri/acdc/regeventing.py:850-889 | An engine bound to a registry stays bound to it. |
| `RegistryDelivery.EveryRunIsChained` | src/keri/kering.py:828-833 | After any run of any engines from an empty database each registry's log runs without a gap from its own inception to its head; every entry is anchored by a real seal and names the entry below it. |
| `RegistryApart.ProcessApart` | src/keri/acdc/regeventing.py:830-889 | Processing an event leaves the log, the escrows, the stored events and the anchors of every other registry alone. |
| `RegistryApart.EscrowsApart` | src/keri/acdc/registraring.py:122-132 | So does a pass over the escrows. |
| `DeliveryOrder.ProcessHolds` | src/keri/acdc/regeventing.py:830-889 | While the events of one registry's chain arrive, none is refused and none that has arrived is lost, whatever other registries store. |
| `DeliveryOrder.SweepDelivers` | src/keri/acdc/regeventing.py:944-954 | A pass over the registry's escrows loses none of them, and anchors them all if all seals are visible. |
| `Arrivals.RunDelivers` | src/keri/acdc/registraring.py:45-46 | In every run of engines sharing a store, the chain's events that were received are all logged or escrowed, and no others of that registry are stored. |
| `Arrivals.DeliveryOrderFree` | src/keri/acdc/regeventing.py:865-889 | If every event of a registry that an engine receives finds its seal then, the registry's log is the longest prefix of its chain that was received, and all later arrivals are queued: order, repetition, the engine and other registries do not matter. |
| `Arrivals.SweepCatchesUp` | src/keri/acdc/regeventing.py:944-954 | Whatever seals were visible while the events arrived, one pass over the registry's escrows with all of them visible leads to that same log. |
| `Arrivals.UnboundHearsFromInception` | src/keri/acdc/regeventing.py:848-852 | An engine that starts unbound receives exactly what arrives from the inception on. |
| `Arbitration.FirstExact` | src/keri/acdc/regeventing.py:1178-1192 | The first of some rivals is the one with an anchor that comes before all others with one: by number, then digest, then SAID, each compared without the comparison used by the code. |
| `Arbitration.ReplayableExact` | src/keri/acdc/regeventing.py:1194-1225 | At the slot behind the log an event can be replayed exactly when it is the issuer's inception or names the entry below as its predecessor. |
| `Arbitration.SweepWinner` | src/keri/acdc/regeventing.py:1257-1266 | A free slot whose predecessor is logged goes to the escrowed event with the earliest anchor, known or found, among those that continue what is below, and the log stays as it is if none has an anchor. |
| `RegistryProtocol.RipeExact` | src/keri/acdc/regeventing.py:1290-1306 | A queued event can be committed exactly when it is an anchored update of the bound registry that names the logged entry right below its slot. |
| `Arbitration.DrainWinner` | src/keri/acdc/regeventing.py:1286-1307 | Draining gives the slot behind the head to the earliest of the queued events that continue the log, and leaves the log as it is when there is none. |
| `Arbitration.RetryLogsSoonest` | src/keri/acdc/regeventing.py:1257-1266 | The event logged when a vacant slot is retried has a seal that comes before those of all others that continue what is below and have one. |
| `Arbitration.TieGoesToSmallerSaid` | src/keri/acdc/regeventing.py:1192 | Of two events sealed by one key event the one with the smaller SAID wins. |
| `Escrows.RetrySlotPlaces` | src/keri/acdc/regeventing.py:1245-1266 | When a slot stays free after a retry, an entry that can still be replayed is in the queue if it has a seal and in the missing-anchor escrow if not; any other is in neither. |
| `Sweeps.DrainTakes` | src/keri/acdc/regeventing.py:1268-1312 | Within a pass, draining fills slot after slot with the queue's winner and stops at the first slot that has none. |
| `Sweeps.SweepExact` | src/keri/acdc/regeventing.py:944-954 | What every slot of the log holds after a pass over the escrows, told from the tables and the key event log before it: its entry if it has one; behind a filled slot the queue's winner or else the missing-anchor escrow's winner; otherwise nothing. |
| `Races.WinnerIsFair` | src/keri/acdc/regeventing.py:1286-1287 | At one slot a pass chooses as one contest of both escrows would exactly when the queue's winner comes before every event there that waits for a seal and finds one. |
| `Races.SweepIsFair` | src/keri/acdc/regeventing.py:1286-1287 | A pass settles all races as one contest of both escrows would exactly when that holds at every slot behind the log. |
| `Races.QueuedRivalWins` | src/keri/acdc/regeventing.py:1286-1287 | Three arrivals at a new engine and a pass over its escrows, in which a queued event beats a rival with an earlier seal. |

## Left out

- Helping.IntToB64: negative numbers, on which the source's loop does not end; `versify` is modelled for the calls that terminate (`Terminates`: no negative version 2 field).
- Convergence.TagCounts: dicts whose name holds a line that opens a fence; such a marker swallows fences below it, so the count does not hold for them (`FenceNameSwallows`).
- Convergence.RoundsCount: the same names.
- Convergence.Converges: the same names.
- Convergence.Idempotent: the same names.
- Drift.ParseSpecBlocks: the lazy multi-line pattern that finds the matches; the list of matches, with stripped names, is the input.
- Drift.Compare: the `repr` text inside a report line; lines hold the structured path and the kind of difference.
- Values other than those of JSON: tuples, sets, bytes, complex numbers and dict keys that are not strings, which `ast.literal_eval` can produce, and parser exceptions the source does not catch.
- RegistryEvents.RegEventer.ProcessEvent: field-level checks of a serialized event and of its digest; events are records whose SAID stands for their content.
- RegistryEvents.RegEventer.DiscoverAnchor: how the key event log is searched and a seal is verified; both are parameters of each call.
- Arrivals.DeliveryOrderFree: rival events within the registry's chain; what becomes of them in one pass is `SweepExact`, and `QueuedRivalWins` shows that it can depend on what was queued when.
- Arrivals.SweepCatchesUp: the same.
- RegistryStore.RegBaser.constructor: reading the stored tables back from LMDB.
- Issuing updates (`blind`, `present`, `vacate`, `_effectiveFrontier`), disclosure vetting and habitats: they build or read events and leave the tables to the calls modelled here.
- LMDB, key encoding, the registry records of `registering.py`, and storing in the web backend.
- `sniff`, the codex tables, the exception classes (error tags here), CLI parsing, file access and printing: easy or not logic of the project.
