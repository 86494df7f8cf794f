# manymux, modelled

manymux keeps terminal sessions running on many machines and lets one client
move between them. It has no single kernel: this project models the parts of it
that carry state or that must undo one another, and proves what each is for, over
every input, every interleaving or every run.

- **Decoders.** `Utf8` and `Frames`: bytes arriving in arbitrary pieces, read as
  though they had come at once. The UTF-8 grammar is section 4 of RFC 3629 and
  the replacement rule section 3.9 of the Unicode Standard.
- **Protocols.** `Park` (one transport reused for attachment after attachment),
  `Ladder` (finding a way onto a machine with no `mm`), `ConfigFile` (one file many
  processes change), `Fanout` (asking every machine at once) and `AttachLoop` with
  `Cycles` (what a run of attachments does about drops, hops and exits). Each is a
  transition system whose every choice is left to the world, beside the loop or
  class that carries it out. `ParkRuns`, `CycleLaws` and `Gestures` say what the steps
  of `Park`, `Cycles` and `AttachLoop` come to, in terms of frames and places alone.
- **Caches and indexes.** `Snapshots` (the last answer of each machine), `RowIds`
  (ids that never change meaning), `Popup`, `PopupTree` and `PopupHeadings` (the rows
  drawn, and in `PopupRuns` those a whole run leaves) and `Groups` (a merge against a copy
  that has gone stale).
- **Printers and the parsers that undo them.** `Shell` against the token rules of
  sections 2.2, 2.3 and 2.6.7 of POSIX.1-2017 XCU, `ServiceWords`, `Pens` against
  section 8.3.117 of ECMA-48, `Base64` against section 4 of RFC 4648,
  `FileUrls` against section 2.1 of RFC 3986, and `Keyboards` against the reader of
  a program's output. `PenLaws` and `KeyboardLaws` say what each sequence means.

`SnapshotLaws` and `Orders` say what a picture keeps and what listings are ordered
by, row by row. `Lists`, `Text`, `Names`, `Sessions`, `Bytes` and `Wrappers` hold what these share:
stable sorting and when it forgets the order of its input, splitting and numbers,
and machine names under their two spellings.

## How the models are set up

- A class holds the fields its Rust counterpart updates in place; each method is
  proved equal to a function of the old state, and the theorems are about that
  function and about every sequence of its steps.
- In `Park` frames carry a label of the attachment they belong to. No party reads
  it; the client and the node go by the tag, and the theorems say the labels come
  out right. The node's side is that of `src/node/mod.rs:335-400` and `630-700`.
- In `ConfigFile` a step that can fail may fail, a process may die between any two
  steps, and process ids come round again. Encoding and parsing are taken as
  inverse, and bytes that parse as nothing are one value, `Torn`.
- In `Ladder` an attempt to launch that fails leaves no stream to retry on, and what
  ssh, the installer and the person answer is different every time.
- In `AttachLoop` a turn says what that turn met: what listings landed, whether the
  attempt worked, how the session's run came back. Two histories that differ only
  in timing are one.
- `Sessions.SessionInfo` keeps the fields anything here decides on; titles, idle
  times and bells are not part of it. `Sessions.THIS_MACHINE` is any name at all.
- Strings are characters; where the program works on bytes so does the model.

## What the code does not keep

Six properties its comments or its shape promise fail, each at an edge. The model
keeps the code as it is, shows the case, and proves exactly when the property holds.

- A group name holds a sigil exactly when one was typed anywhere but at the very
  front (`Groups.SigilStaysExactlyWhen`; `Groups.SigilCanStay` has two). Exactly when
  it was typed right after the first one, white space apart, the bare spelling of the
  name names another group (`Groups.BareNameComesBack`).
- A session its machine said had closed can come back into the list when the popup
  closes (`Snapshots.ClosedRowComesBack`; `Snapshots.AbsorbedStands` says when).
- Renaming a session to a name a dead one on the trail still has puts one address on
  the trail twice (`Cycles.RenamingStaysDistinct` says when, and
  `AttachLoop.RenameRepeatsTheTrail` is such a run). A digit is skipped exactly when
  the repeat is among the sessions the digits count (`PopupTree.DigitsLeaveNoGap`):
  one that is not drawn, or is past the ninth, does no harm. In that run it is
  (`PopupRuns.RenameLosesADigit`).
- A hop onto a session that has gone does not lead back to where it was made from
  exactly when that session has been given the dead one's name meanwhile and there is
  another further back (`AttachLoop.HopIsTakenBack`; `AttachLoop.HomeCanBeMissed` is
  such a run).
- The popup heads the attached session's machine a second time exactly when no listing
  shows that session and something is drawn on its machine where its row is added
  (`PopupHeadings.MachinesAreHeadedOnceExactlyWhen`; `MachineCanBeHeadedTwice` is such
  a listing), and under a narrowing draws it in the section of a group it is not in
  (`PopupTree.DrawnInAGroupItIsNotIn`).
- Choosing a group, or widening, should leave where they are those already in it. A
  session no listing has yet is moved even by widening, if its machine has another to
  walk (`Gestures.NarrowMovesExactlyWhen` says exactly when anybody moves).

## Model

| member | source | states |
|---|---|---|
| `Utf8.Utf8Decoder.Decode` | src/utf8.rs:21-62 | a chunk after what was held back is shown exactly as far as it is decided, by the grammar and the maximal-subpart rule; what is still the beginning of a sequence is held, and nothing else |
| `Utf8.ChunksDoNotMatter` | src/utf8.rs:16-62 | for every stream and every cut of it into chunks, empty ones included, the text and the bytes held are those of one call on the whole |
| `Utf8.ScanTailIsHeld` | src/utf8.rs:13-18 | what is left pending is a proper beginning of some well-formed sequence, at most three bytes |
| `Utf8.BeginsIsAPrefixOfAWellFormedSequence` | src/utf8.rs:25-62 | the grammar predicate used for that means what it says: bytes exist that complete it |
| `Utf8.FromUtf8Reports` | src/utf8.rs:31-45 | the model of `from_utf8` meets its documented contract: a valid prefix, and at its end a maximal subpart of the reported length or a cut sequence |
| `Utf8.ReadingIsUnique` | src/utf8.rs:29-61 | there is one way to divide a stream into well-formed sequences, maximal subparts and a cut tail, and the decoder takes it |
| `Utf8.NoByteIsLost` | src/utf8.rs:29-61 | the units and the tail put back together are the stream, byte for byte |
| `Utf8.ReplacedBytesAreFew` | src/utf8.rs:45-55 | one U+FFFD stands for one to three bytes |
| `Utf8.EncodedTextReads` | src/utf8.rs:29-44 | well-formed text is reproduced exactly with nothing pending |
| `Utf8.CharIsLaidOut` | src/utf8.rs:29-44 | a character is its bits from the highest, in the lead after its marker and six to a byte after it |
| `Utf8.LosslessExactlyWhenClean` | src/utf8.rs:29-61 | what is shown encodes back to the stream if and only if nothing was replaced or left over |
| `Frames.Pipe.WriteFrame` | src/proto.rs:772-789 | a frame within the limit goes out whole as tag, big-endian length and body if the pipe holds and flushes, and otherwise just as much of it as the pipe took; one over the limit is refused and nothing goes out |
| `Frames.FrameIsLaidOut` | src/proto.rs:45-45 | a frame is its tag, its length from the highest byte to the lowest and its body, of a mebibyte at most |
| `Frames.FrameReader.Decode` | src/proto.rs:831-850 | one frame is taken off the front of the buffer, or the buffer is left as it was and the answer says whether more is wanted or the header is over the limit |
| `Frames.FrameReader.Feed` | src/proto.rs:868-879 | after a read every complete frame has been handed over and fewer than HEAD + MAX_FRAME bytes are kept |
| `Frames.ReadsDoNotMatter` | src/proto.rs:827-850 | for every cut of a stream into reads, the frames, the leftover and the error are those of one parse of the whole |
| `Frames.EncodedFramesParse` | src/proto.rs:772-789 | any frames written one after another parse back as they were with nothing left |
| `Frames.CutStreamParses` | src/proto.rs:827-850 | a stream cut anywhere gives the frames that were whole before the cut and leaves the rest |
| `Frames.LeftoverMeansMidFrame` | src/proto.rs:868-879 | a cut stream leaves nothing over if and only if the cut fell between frames |
| `Frames.ErrorsAreOverlongHeaders` | src/proto.rs:831-843 | an error arises if and only if, after whole frames, a header says more than MAX_FRAME, and it says what the header said |
| `Frames.ParsingIsUnique` | src/proto.rs:827-850 | there is one way to take a stream apart into frames and an unfinished rest |
| `Park.NoFrameCrossesTheFence` | src/client/mod.rs:658-741 | in every interleaving of client, node and failing connection, a reader is only ever handed frames of its own attachment |
| `Park.ReadersMissNothing` | src/client/mod.rs:722-741 | what a reader was handed is the run of frames its attachment emitted first, in order and without a gap |
| `Park.AnswersAreTheirOwn` | src/client/mod.rs:689-705 | the response taken for an attach is the response to that attach, and never anything but a response |
| `Park.NeitherWaitsForever` | src/client/mod.rs:665-689 | whenever the client waits on a fence or an answer, some party can move, even with pipes of bounded room |
| `ParkRuns.AnyNumberOfVisits` | src/client/mod.rs:655-741 | one transport can carry any number of attachments, each typed in and shown to its own reader, the next asked for before or after the last is let go |
| `ParkRuns.LeavingAndAsking` | src/client/mod.rs:655-741 | with the next attach pipelined, what the node wrote late is drained and the attachment that follows is the one asked for |
| `ParkRuns.TypingAndShowing` | src/node/mod.rs:335-400 | what is typed reaches the node and what is shown reaches this attachment's reader |
| `ParkRuns.Endings` | src/client/mod.rs:686-693 | a detach ends the node's side, and a refusal closes the client's with the refusal taken for its answer |
| `ParkRuns.AnythingCanFail` | src/client/mod.rs:655-741 | at any moment either party or the connection may go, with what had not arrived |
| `ParkRuns.StrangersAreNoticed` | src/client/mod.rs:686-693 | anything but a response where one is due is noticed and ends it, and so does anything but a request at the node |
| `Park.ParkedReader.NextParked` | src/client/mod.rs:714-720 | the next frame that arrived, or, once there is none, whether the connection closed or reading it failed |
| `Park.ParkedReader.Drain` | src/client/mod.rs:728-735 | every frame up to and including the first PARK is dropped and nothing after it is touched; with no PARK, the way the connection ended |
| `Park.ParkedReader.Attach` | src/client/mod.rs:686-693 | the frame right after the fence is the answer, whatever stood before it; anything but a response there is an error, and so is the end of the connection |
| `Park.DrainFindsTheAnswer` | src/client/mod.rs:722-741 | over the frames of any run, what the drain loop takes for the answer is the response to the pipelined attach |
| `Ladder.Stream.Reopen` | src/client/mod.rs:444-482 | one step down the ladder leaves the stream and its counts as the step function says |
| `Ladder.Stream.Request` | src/client/mod.rs:381-442 | a request is sent, and again after every step that opened a new stream, until answered or out of ways |
| `Ladder.Stream.CarriedBy` | src/client/mod.rs:335-366 | connecting installs first, with consent, on a machine found to have nothing, and remembers that it did; each question, install and launch is counted where it is made |
| `Ladder.AgainCostsARung` | src/client/mod.rs:444-482 | a step that leaves a stream to resend on followed an exit of 127, launched once and used up one rung of the measure |
| `Ladder.OnlyNotFoundIsTried` | src/client/mod.rs:444-455 | nothing is tried if and only if there is no way in left or ssh did not exit with 127, and then the stream is kept as it was |
| `Ladder.NextNameIsTried` | src/client/mod.rs:457-475 | short of the bottom the next name is launched and nobody is asked anything |
| `Ladder.NothingWithoutConsent` | src/client/mod.rs:457-482 | at the bottom a question is put if and only if somebody can be asked and nothing was installed, the installer runs if and only if the answer is yes, an agent is launched if and only if it worked, and the way in is from the top |
| `Ladder.ConnectingTakesConsent` | src/client/mod.rs:335-366 | connecting does the same on a machine found to have nothing, and leaves a way to look further if and only if its launch worked |
| `Ladder.RefusedIsNeverInstalled` | src/client/mod.rs:335-482 | with every answer no, from connecting on, nothing is ever installed |
| `Ladder.RefusedLifeInstallsNothing` | src/client/mod.rs:381-482 | nor from any stream already open |
| `Ladder.OtherFailuresKeepTheStream` | src/client/mod.rs:381-455 | a request that meets anything but a 127 fails with the stream as it was |
| `Ladder.LadderIsBounded` | src/client/mod.rs:226-239 | over its whole life a stream launches at most four agents on Unix and two on Windows, and asks and installs at most once counting connect time |
| `Ladder.ResentOnlyAfterNotFound` | src/client/mod.rs:534-539 | every send of a request but the last met an exit of 127 |
| `Ladder.LifeInstallsOnlyWhatItAsked` | src/client/mod.rs:466-476 | nothing is installed without a question asked |
| `Ladder.BoundIsReached` | src/client/mod.rs:226-239 | the bounds are tight: there is a world that uses every rung |
| `ConfigFile.NeverTorn` | src/config.rs:252-286 | however writers interleave and die, locked or not, the file is what it was at first or one writer's whole value |
| `ConfigFile.NeverShared` | src/config.rs:259-273 | no two live writers hold one temporary file, whatever process ids are used again |
| `ConfigFile.NoUpdateIsLost` | src/config.rs:220-246 | with every caller locking, the file is always the committed changes folded in the order the lock was held |
| `ConfigFile.AnswersAreTrue` | src/config.rs:220-246 | a call that returned Ok is in that fold exactly once and a call that returned an error is not in it |
| `ConfigFile.EveryCommitChanged` | src/config.rs:242-245 | each change in the fold was made of the value just before it |
| `ConfigFile.CallLeftAloneCommits` | src/config.rs:220-286 | after any run, a call that finds the lock free and is neither failed nor interrupted puts its changed value in the file, says so and gives the lock up, whatever temporary names are left about |
| `ConfigFile.RefusedCallLeavesAll` | src/config.rs:220-246 | one whose change is refused, or that finds what does not parse, says so and leaves everything as it was |
| `ConfigFile.CrashFreesTheLock` | src/config.rs:220-246 | a process that dies gives the lock up and changes nothing on disk |
| `ConfigFile.FailureTidies` | src/config.rs:274-286 | a write or an install that fails takes its temporary file away, says so and gives the lock up |
| `ConfigFile.SpawnBegins` | src/config.rs:248-262 | a process counts its temporary names from nought |
| `ConfigFile.ReadersSeeAFold` | src/config.rs:203-209 | an unlocked reader sees the fold as it stood when it looked or when it opened |
| `ConfigFile.Directory.FreshName` | src/config.rs:256-273 | the loop ends with a name that no leftover file has |
| `ConfigFile.Directory.WritePrivateFile` | src/config.rs:252-286 | the whole value is installed, or every way of failing leaves the file and every other file as they were |
| `ConfigFile.Directory.ChangeToml` | src/config.rs:220-246 | read, changed and put back whole, or the file is what it was |
| `Groups.Groups.Assign` | src/client/groups.rs:237-262 | in one group and no other under the name that stuck, everyone else where they were; or refused and nothing moved |
| `Groups.Groups.Clear` | src/client/groups.rs:274-283 | out of every group, everyone else where they were, no group left empty |
| `Groups.Groups.Set` | src/client/groups.rs:264-272 | a group to be in or none, with the state the choice promises |
| `Groups.Groups.Prune` | src/client/groups.rs:290-300 | exactly the members whose host answered without them are dropped |
| `Groups.DepartedExactlyWhen` | src/client/groups.rs:290-300 | a member has departed if and only if its host answered and no row listed is of it |
| `Groups.Groups.RefreshAt` | src/client/groups.rs:183-207 | a membership is taken out of the current file if and only if it was in the copy read before asking and has departed since; a valid file stays valid |
| `Groups.LateMovesSurvive` | src/client/groups.rs:183-207 | whatever was done since the copy was read, a member last put in a group is in that group alone after a late listing is merged, if and only if it has not both been there in the copy and departed |
| `Groups.PruneAgreesWhenNothingMoved` | src/client/groups.rs:183-207 | merging agrees with plain pruning if and only if nobody joined since who has departed |
| `Groups.RefreshingTwiceIsOnce` | src/client/groups.rs:174-207 | the same answers merged again change nothing |
| `Groups.GroupOf` | src/client/groups.rs:216-222 | the first group holding a member by name, or none if none does |
| `Groups.GroupOfIsTheGroup` | src/client/groups.rs:216-222 | in a valid table it is the one group the member is in |
| `Groups.FileStaysValid` | src/client/groups.rs:142-152 | with any number of clients putting, moving, taking out and merging, however they interleave, fail and die, each member on disk is in at most one group and no group is empty |
| `Groups.EditsKeepValid` | src/client/groups.rs:183-283 | each of the four edits of the file, the ones its methods are proved to make, keeps a valid table valid |
| `Groups.EditsMean` | src/client/groups.rs:183-283 | and what each does to every membership: only the member it is about is moved |
| `Groups.SpelledNameComesBack` | src/client/groups.rs:237-251 | a name spelled with its sigil is read back as itself |
| `Groups.BareNameComesBack` | src/client/groups.rs:237-251 | spelled bare it is too, if and only if no second sigil was typed right after the first, white space apart |
| `Groups.SigilStaysExactlyWhen` | src/client/groups.rs:227-251 | the comment says no name holds a sigil; one does if and only if a sigil was typed anywhere but at the front |
| `Groups.SigilCanStay` | src/client/groups.rs:227-251 | names with a sigil that are accepted: one typed with two, and one with it in the middle |
| `Groups.RefusedExactlyWhen` | src/client/groups.rs:237-251 | a name is refused if and only if it holds a slash or is nothing but white space and a sigil |
| `Snapshots.Snapshot.Follow` | src/client/listed.rs:105-132 | the loop keeps the rows of machines that said nothing and are not live under another address, after the new rows, in listing order |
| `Snapshots.Snapshot.Renamed` | src/client/listed.rs:77-83 | a confirmed rename is applied to every row at that address under either spelling of the machine |
| `Snapshots.Snapshot.RenamedMember` | src/client/listed.rs:86-92 | the same by stable identity |
| `SnapshotLaws.RenamingIsByAddress` | src/client/listed.rs:77-83 | of every row at the address, on its machine by either name, the name is another and nothing else is; and no other row is |
| `SnapshotLaws.RenamingIsByMember` | src/client/listed.rs:86-92 | the same of every row of that session |
| `SnapshotLaws.ForgettingIsByAddress` | src/client/listed.rs:95-101 | exactly the rows at the address are out of both lists |
| `SnapshotLaws.FollowedRows` | src/client/listed.rs:105-132 | a row is known after a listing if and only if the listing has it, or it was known, its machine did not answer by any name and no row of the listing is of that session or address |
| `SnapshotLaws.MembersAreSessions` | src/client/groups.rs:62-90 | rows are of one session if and only if machine, process and second of starting agree |
| `SnapshotLaws.MembersOutliveRenames` | src/client/groups.rs:62-90 | which no rename changes |
| `SnapshotLaws.MachinesAreSame` | src/hosts.rs:70-115 | names are of one machine if and only if they are one name, or each is this machine's own or `local` |
| `Snapshots.FollowingOn` | src/client/listed.rs:105-132 | machine by machine, one step is the new answer where there is one and what was known before where there is none |
| `Snapshots.KnownIsTheLastAnswer` | src/client/listed.rs:105-140 | over any history of listings, exits and renames, the rows known on a machine are the rows of its last answer, less what has gone since, and the fresh rows are the newest listing alone |
| `Snapshots.EndedStaysAway` | src/client/listed.rs:95-101 | a session whose end was seen is listed by no later picture, through any events, until a machine lists it or another is given its name |
| `Snapshots.AbsorbedStands` | src/attaching.rs:1218-1223 | following the lister's picture with the loop's older one changes nothing if and only if the lister knows a session, or the older copy knows none but on machines the lister heard from |
| `Snapshots.ClosedRowComesBack` | src/attaching.rs:1218-1223 | where that condition fails a session its machine said had closed is listed again |
| `RowIds.PreserveIds` | src/client/listed.rs:604-618 | the table only grows, each row keeps its value, and wears the first id that value has in the table |
| `RowIds.IdsKeepTheirMeaning` | src/client/listed.rs:299-304 | through any chain of listings and renames, an id ever handed out stands for the same thing, renames aside |
| `RowIds.RowsKeepTheirMeaning` | src/client/listed.rs:294-304 | a row chosen from an old picture names what it was built from, whatever has landed since |
| `RowIds.ReturningRowsKeepTheirId` | src/client/listed.rs:604-618 | through any chain of listings and renames, a row that stands for what an id was handed out for wears that id again if and only if nothing with an earlier id has come to be called the same, and otherwise an earlier one |
| `RowIds.UnrenamedRowsKeepTheirId` | src/client/listed.rs:604-618 | with nothing renamed, a row that goes away and comes back wears the id it had |
| `RowIds.RenameTakesAnId` | src/client/listed.rs:271-282 | one rename does that to the session renamed if and only if its new name has an earlier id, and to the one that had the name if and only if the renamed one's is earlier |
| `RowIds.Renamed` | src/client/listed.rs:271-282 | a rename changes the table and the rows that show it, and no id |
| `Popup.Of` | src/client/listed.rs:328-462 | the rows, ids, groups, machines and highlight of a listing; an empty trail draws nothing |
| `Popup.DrawTree` | src/client/listed.rs:341-415 | groups whole in order of first appearance, then the rest by machine, and a row for the attached session if none of those is it |
| `Popup.MarkAvailable` | src/client/listed.rs:416-426 | a row no fresh answer has is dim, and out of reach unless it is on the machine you are on |
| `Popup.HandOutDigits` | src/client/listed.rs:434-449 | the loop gives the digits along the trail to rows that are there |
| `Popup.Machines` | src/client/listed.rs:527-571 | the machine rows, each with its place for an id, and the first on the machine you are on highlighted |
| `Popup.MachinesOffered` | src/client/listed.rs:527-535 | every watched machine once in order, with this one and the one you are on, and no other |
| `Popup.GroupRows` | src/client/listed.rs:456-479 | everything first, then each group a fresh session is in, by name |
| `Popup.HeldExactlyWhen` | src/client/listed.rs:456-461 | a group is offered if and only if a session of the newest listing is in it, once and in order of name |
| `Popup.IdIsTheAddress` | src/client/listed.rs:575-601 | a row's id indexes the address of the session it shows, and the first id is the attached session's and nobody else's |
| `PopupTree.RowsAreTheSessions` | src/client/listed.rs:341-415 | the rows are exactly the sessions that pass the narrowing, each once, and the attached session whether or not it is among them |
| `PopupTree.EverySessionStands` | src/client/listed.rs:357-398 | each session of the listing stands under its own machine's heading, in its group's section if it has one; the attached one, if not among them, stands last under its machine's heading, inside the section narrowed to if there is one |
| `Orders.DrawnGroupByGroup` | src/client/listed.rs:357-398 | the groups are drawn whole in the order their first sessions are shown in, then those in none, each in listing order |
| `PopupTree.DrawnInAGroupItIsNotIn` | src/client/listed.rs:399-415 | so an attached session that a narrowing hides is drawn in the section of a group it is not in |
| `PopupTree.EveryRowStands` | src/client/listed.rs:341-462 | in the rows handed over, each shows the session its id stands for under the heading of that session's machine |
| `PopupHeadings.MachinesAreHeadedOnceExactlyWhen` | src/client/listed.rs:341-415 | in the rows handed over, of a cache in listing order, no machine is headed twice in a group's section or among the rest, if and only if the attached session is shown or nothing shown is on its machine in the group narrowed to, or with no narrowing in no group; otherwise the added heading alone is the second |
| `PopupHeadings.PlacesOfListing` | src/client/listed.rs:357-398 | of the listing itself, a machine is headed in a group's section or among the rest if and only if it has a session there, and once |
| `PopupHeadings.MachineCanBeHeadedTwice` | src/client/listed.rs:399-415 | it happens: one session listed, and you in another on its machine that is not listed yet |
| `PopupTree.IdsAreDistinct` | src/client/listed.rs:582-601 | no id is on two rows |
| `PopupTree.OneRowForWhereYouAre` | src/client/listed.rs:399-415 | there is exactly one row for the attached session and the highlight is on it |
| `PopupTree.DigitsFollowTheTrail` | src/client/listed.rs:434-449 | a row's digit is the last place its session has among the first nine of the trail that are drawn, counting from 1, and a session not among them has none; the attached session is first of them |
| `PopupTree.DigitIsWornExactlyWhen` | src/client/listed.rs:434-449 | a digit is on a row if and only if that many are counted and the session at that place is not counted again further on |
| `PopupTree.DigitsLeaveNoGap` | src/client/listed.rs:434-449 | every digit up to the number counted is on a row if and only if no session is counted twice |
| `PopupRuns.FreshRunsLeaveNoGap` | src/attaching.rs:109-703 | after any run in which new sessions were new and new names free, the popup numbers its rows without a gap |
| `PopupRuns.RenameLosesADigit` | src/client/switch.rs:320-337 | a run of two turns that renames a session to a dead one's name, after which no row of any listing wears the digit 1 |
| `PopupTree.ReachableExactlyWhen` | src/client/listed.rs:416-426 | a row can be acted on if and only if its session is the attached one, in the newest listing or on the machine you are on, and its note says which |
| `Fanout.Listing.NoteDuplicates` | src/target.rs:109-135 | the duplicates are those of the answers and nothing else changes |
| `Fanout.ListHosts` | src/target.rs:257-306 | this machine and every host asked, whichever comes back next taken next, and the listing finished from the answers in that order |
| `Fanout.NeverMoreThanSixteen` | src/target.rs:281-296 | for every completion order, at most sixteen are out and never fewer than could be, nobody answers twice or unasked, and it stops exactly when everybody has come back |
| `Fanout.OrderDoesNotMatter` | src/target.rs:281-306 | of distinct hosts, sessions, misses, duplicates, `answering` and `reached` are the same for every completion order |
| `Fanout.AllNamesButTheBest` | src/target.rs:109-135 | of machines asked under distinct names, the pairs reported are exactly each shared node's names but the best with the best |
| `Fanout.AnsweringIsWhoAnswered` | src/target.rs:149-180 | `answering` is every machine that answered, once and in order, and `reached` the same without this machine |
| `Fanout.RowsAreTheAnswers` | src/target.rs:297-304 | the rows are exactly those the hosts gave, in order by machine and then oldest first |
| `Orders.ListingIsInOrder` | src/target.rs:299-306 | a listing is by machine, then oldest first, then by name, and the machines missed are by name |
| `Orders.KnownIsInOrder` | src/client/listed.rs:105-140 | so is what is known, after any history |
| `Orders.KeptNameIsBest` | src/target.rs:121-132 | the name said to be kept is this machine's own if there is one, then the shortest, then the first |
| `Orders.DuplicatesAreInOrder` | src/target.rs:109-135 | the pairs said are in order of the nodes, and one node's from the better name to the worse |
| `Fanout.EveryRowAnswered` | src/target.rs:67-85 | every row of a listing is on a machine that answered it |
| `Cycles.Cycle.FallBack` | src/client/switch.rs:345-353 | back to the head of the trail with the ended session out of everything, or nothing if there is no trail |
| `Cycles.Cycle.RenameAt` | src/client/switch.rs:320-337 | the address is changed wherever it is held |
| `Cycles.MovingStaysDistinct` | src/client/switch.rs:267-271 | a session stays on the trail once if and only if the move goes somewhere else |
| `Cycles.RenamingStaysDistinct` | src/client/switch.rs:320-337 | and through a rename if and only if the new name is not on the trail already |
| `Cycles.UndoTakesAHopBack` | src/client/switch.rs:357-367 | forgetting and undoing a hop is as if it had not been made, the dead session apart |
| `Cycles.FallingBackIsUndoing` | src/client/switch.rs:345-353 | falling back from a session hopped to leaves what forgetting it would have |
| `Cycles.NextWalksTheRound` | src/client/switch.rs:218-238 | tab goes round what it walks: as many steps as there are sessions visits each and is back at the start |
| `Cycles.PreviousUndoesNext` | src/client/switch.rs:218-238 | shift-tab undoes tab |
| `Cycles.StepsStayInFocus` | src/client/switch.rs:218-264 | every motion but the way back lands inside the narrowing: tab on this machine unless a group is in focus, the host keys never on it |
| `Cycles.NarrowingAgrees` | src/client/switch.rs:181-215 | a narrowing is kept through a listing if and only if it has sessions to walk and this session, if listed, is inside it |
| `CycleLaws.MovingMoves` | src/client/switch.rs:267-293 | a move ends where it was made to, the session left heads the trail, the one moved to is out of the rest of it, which keeps its order, and only starting drops the narrowing |
| `CycleLaws.LastGoesBack` | src/client/switch.rs:218-220 | the way back leads to where the last move was made from, and pressed again to where it was made to |
| `CycleLaws.LastGoesNowhere` | src/client/switch.rs:218-264 | it leads nowhere if and only if there is no trail or its head is this session |
| `CycleLaws.TabGoesOn` | src/client/switch.rs:221-237 | tab goes to the next session in the listing that is in the group narrowed to, or with none on this machine, and from the last round to the first |
| `CycleLaws.ShiftTabGoesBack` | src/client/switch.rs:221-237 | shift-tab the other way |
| `CycleLaws.TabFromOutside` | src/client/switch.rs:218-264 | from a session that is not walked itself, to the first that is, or the last, or nowhere |
| `CycleLaws.TabAlone` | src/client/switch.rs:218-264 | the only session walked has nowhere to go |
| `CycleLaws.MachinesAreSeenInOrder` | src/client/switch.rs:238-250 | the machines to go to are those inside the narrowing, once, in the order their first sessions are listed in |
| `CycleLaws.HostKeysGoOn` | src/client/switch.rs:238-262 | the host keys land on the first session inside the narrowing of the next machine, or the one before, round the ends |
| `CycleLaws.HostKeysFromOutside` | src/client/switch.rs:238-262 | from a machine that is not among them, of the first or the last |
| `CycleLaws.HostKeysAlone` | src/client/switch.rs:238-262 | with no other machine they lead nowhere |
| `CycleLaws.HostKeysWalkTheRound` | src/client/switch.rs:238-271 | as many steps as there are machines visit each and are back at the start |
| `CycleLaws.RefreshingRefreshes` | src/client/switch.rs:181-215 | a listing is held as it came and moves nobody, and a narrowing is dropped if and only if nobody listed is in it or this session is listed out of it |
| `CycleLaws.RenamingRenames` | src/client/switch.rs:320-337 | a rename is of every place the address is held at, the groups and everything else as they were |
| `CycleLaws.ForgettingForgets` | src/client/switch.rs:364-367 | exactly the session forgotten is out of the trail and the walk |
| `CycleLaws.FallingBackGoesBack` | src/client/switch.rs:345-353 | falling back is to the head of the trail with exactly the session left out of everything |
| `AttachLoop.DoAttach` | src/attaching.rs:65-703 | the loop over whatever each turn meets ends as the step function says, with the cycle updated in place |
| `AttachLoop.AfterRun` | src/attaching.rs:469-703 | what each outcome of a run does to the loop's state |
| `AttachLoop.Chosen` | src/attaching.rs:473-622 | what each choice in the popup does to the cycle, the hop flag and the keyboard |
| `Gestures.GoGoes` | src/attaching.rs:512-522 | a session chosen is gone to and the keyboard with it, the one left at the head of the trail; choosing this one, or one no longer there, moves nothing |
| `Gestures.GoThenLeave` | src/attaching.rs:512-522 | leaving right after leaves the session chosen |
| `Gestures.SwitchGoes` | src/attaching.rs:647-663 | a switch key goes where its motion leads from the cycle as its news leaves it, or nowhere, and keeps the keyboard on the list |
| `Gestures.NarrowNarrows` | src/attaching.rs:527-538 | narrowing moves nobody listed inside, and anybody else to the first session walked in it |
| `Gestures.NarrowMovesExactlyWhen` | src/attaching.rs:527-538 | it moves if and only if the session is not listed inside and there is one to walk |
| `Gestures.StartGoes` | src/attaching.rs:545-646 | a session started is gone to with the narrowing dropped; one that could not be moves nothing |
| `Gestures.ChangesStay` | src/attaching.rs:580-630 | regrouping relists, naming renames wherever the address is held, and neither moves anybody |
| `Gestures.ExitFallsBack` | src/attaching.rs:669-689 | an exit hands back to the head of the trail and is carried under the name the session has by then, or ends the run |
| `Gestures.OtherOutcomes` | src/attaching.rs:690-716 | a drop waits or is given up, a detach leaves the session by its name, and a broken run is an error |
| `Gestures.LandingIs` | src/attaching.rs:109-246 | an attempt is made on the session the run is in once the news is taken; the first that works narrows to the group it is told, and whatever was carried is dropped |
| `Gestures.NewsIsTaken` | src/attaching.rs:1167-1240 | a listing replaces the cycle's sessions, and a rename it implies is made unless it is of the current session |
| `Gestures.MissIs` | src/attaching.rs:128-178 | what a miss does to a run that is carrying an exit, waiting or not attached yet |
| `AttachLoop.OnlyTheFirstMissIsAnError` | src/attaching.rs:128-178 | a run reports a failed attempt if and only if its very first attempt failed |
| `AttachLoop.WaitsForTheSameSession` | src/attaching.rs:152-174 | once attached, any number of unanswered attempts leaves the run waiting for the same session with its hop and its carried exit as they were |
| `AttachLoop.OnlyGivingUpEndsAWait` | src/attaching.rs:163-174 | after any run of at least one turn, a miss that is neither a hop to undo nor the end of a carried exit stops the run if and only if the wait is given up |
| `AttachLoop.ExitIsFinalExactlyWhen` | src/attaching.rs:132-140 | a run ends in an exit exactly when the session has nothing to fall back to, or the fallback is gone before any attach worked |
| `AttachLoop.EndedIsTheExitCarried` | src/attaching.rs:653-680 | the exit carried is that of the last session landed in, if only misses followed it |
| `AttachLoop.HopIsTakenBack` | src/attaching.rs:141-151 | a hop onto a session that has gone is undone through any number of unanswered attempts, listings and renames, the dead address out of the trail and the walk; the run is back where the hop was made from, under the name that has by then, if and only if that is not the dead address or there is nowhere else to go back to |
| `AttachLoop.HomeCanBeMissed` | src/attaching.rs:141-151 | a run of three turns that is not: the session hopped from is renamed to the dead one's name and passed over |
| `AttachLoop.UndoingGoesBack` | src/attaching.rs:141-151 | from any state, undoing goes to the nearest on the trail that is not at the dead address, or stays if there is none, with that address out of the trail and the walk |
| `AttachLoop.NeverSpins` | src/attaching.rs:141-151 | between any two turns of a run that undo a hop a session is landed in, so never two in a row |
| `AttachLoop.TurnsAddUp` | src/attaching.rs:109-178 | every turn of a run lands, undoes or waits, and no more undo than land |
| `AttachLoop.RunStaysSane` | src/attaching.rs:178-200 | before the first attach there is no hop, exit or loss; a carried exit excludes a hop; a loss has given the keyboard back |
| `AttachLoop.TrailStaysDistinct` | src/attaching.rs:109-703 | after any run in which new sessions were new and new names free, no session is twice on the trail, nor in the landing a popup is drawn in |
| `AttachLoop.RenameRepeatsTheTrail` | src/client/switch.rs:320-337 | a run of two turns that is not so, after which one address is on the trail twice |
| `Shell.JoinedWordsReadBack` | src/shell.rs:12-28 | POSIX token recognition and quote removal on a joined argv give it back, if and only if no word holds a NUL |
| `Shell.JoinIsInjective` | src/shell.rs:12-18 | no two argvs are one line |
| `Shell.QuoteReads` | src/shell.rs:22-28 | a quoted word is read as itself wherever in a word it stands |
| `Shell.QuotedExactlyWhen` | src/shell.rs:22-28 | a word goes unquoted if and only if it is one and every letter of it is safe |
| `ServiceWords.DoubleQuotedIsOnePass` | src/service.rs:367-373 | the chain of replacements is a single pass: none touches what an earlier one put in |
| `ServiceWords.DoubleQuotedReads` | src/service.rs:367-373 | read inside double quotes it is itself, whatever is around it |
| `ServiceWords.PathSurvivesBothReadings` | src/service.rs:347 | an rc.d command string read in double quotes and then evaluated gives the path as one word among the words around it |
| `ServiceWords.AssignedPathReads` | contrib/rc.d:24-25 | a quoted path assigned to a variable is one word with the name |
| `ServiceWords.SystemdBodyIsOnePass` | src/service.rs:355-364 | the six replacements are a single pass |
| `ServiceWords.SystemdWordReadsBack` | src/service.rs:355-364 | systemd's unquoting and then `%%` give back any value |
| `ServiceWords.SystemdWordIsOneLine` | src/service.rs:355-364 | a word never breaks the line it is on |
| `Pens.Read` | src/client/pen.rs:120-136 | the loop over the sequences leaves the pen they spell |
| `Pens.Apply` | src/client/pen.rs:139-192 | one body applied parameter by parameter, a colour taking exactly the parameters it reads |
| `Pens.Selected` | src/client/pen.rs:58-75 | the sequence painted for a selected cell |
| `Pens.SelectedReadsBack` | src/client/pen.rs:58-201 | reading back what is painted gives the pen with the band for ground, inverse undone and the intended glyph colour, or the fallback where that cannot be read |
| `Pens.SelectingTwiceIsOnce` | src/client/pen.rs:58-75 | selecting what is selected changes nothing, whether or not the fallback can be read |
| `PenLaws.SelectedCellIs` | src/client/pen.rs:58-75 | whatever was written before, a selected cell is on the band, its glyph in its own colour, the ground's where reversed, if that can be read there and the fallback if not; its attributes stay and nothing is reversed |
| `PenLaws.SpelledPenIsRead` | src/client/pen.rs:120-192 | any pen spelled out as a program would, short names for the sixteen colours, is read as itself after anything |
| `PenLaws.SpelledCellSelected` | src/client/pen.rs:58-192 | and a cell in it, selected, is as said of its own fields |
| `PenLaws.OnCodes` | src/client/pen.rs:146-153 | 1 to 5, 7 and 9 each turn on their own attribute of any pen and no more, and 0 makes it plain |
| `PenLaws.OffCodes` | src/client/pen.rs:154-171 | 21 to 25, 27, 29, 39 and 49 each clear their own fields of any pen and no more |
| `PenLaws.ThemeColours` | src/client/pen.rs:163-171 | the sixteen by their short names on either ground |
| `PenLaws.ColoursAreRead` | src/client/pen.rs:164-190 | any colour after a 38 or a 48 |
| `PenLaws.BrokenColours` | src/client/pen.rs:181-190 | a colour that is not one is no colour, and what follows the number that shows it is read on its own |
| `PenLaws.OtherCodes` | src/client/pen.rs:145-172 | every other number does nothing |
| `PenLaws.UnreadableResets` | src/client/pen.rs:140-146 | a parameter that is no number is a reset |
| `PenLaws.TogetherOrApart` | src/client/pen.rs:139-172 | several parameters in one sequence are as many sequences |
| `PenLaws.OthersAreSkipped` | src/client/pen.rs:130-136 | a sequence that does not end in an m, or does not end, changes nothing |
| `PenLaws.TextChangesNothing` | src/client/pen.rs:130-136 | nor does text after one that does |
| `PenLaws.NothingIsPlain` | src/client/pen.rs:120-126 | with nothing written a pen is plain |
| `Base64.ToBase64` | src/clipboard.rs:409-428 | the loop over chunks writes the encoding |
| `Base64.Base64IsExact` | src/clipboard.rs:409-428 | a strict decoder of section 4 of RFC 4648 reads some text as some bytes if and only if the text is their encoding |
| `Base64.EncodedShape` | src/clipboard.rs:409-428 | four letters for every three bytes begun, pads exactly for the bytes not there and only at the end |
| `Base64.LettersAre` | src/clipboard.rs:409-428 | the alphabet is capitals, small letters, digits, plus and slash in that order |
| `FileUrls.Decode` | src/clipboard.rs:308-325 | the loop undoes each escape and leaves every other byte |
| `FileUrls.PathComesBack` | src/clipboard.rs:298-325 | however an absolute path is escaped, and with or without this machine named, the URL gives the path back |
| `FileUrls.AllEscapedSpells` | src/clipboard.rs:348-351 | every byte has an escape the digit pair reads, so there is always such a spelling |
| `FileUrls.LeftAloneWithoutEscapes` | src/clipboard.rs:308-325 | bytes are left alone if and only if none of them begins an escape |
| `FileUrls.HexDigitsAre` | src/clipboard.rs:348-351 | the sixteen digits in either case are read as their values, and no other byte is a digit |
| `FileUrls.OthersAreNotPaths` | src/clipboard.rs:298-306 | an entry that is no URL is itself, and one of another machine's, or of no absolute path, names none |
| `Keyboards.Keyboard.Push` | src/keyboard.rs:25-30 | flags pushed, the oldest dropped when there is no room, never more than sixteen |
| `Keyboards.NoteTouchesTheTop` | src/keyboard.rs:32-65 | whatever a sequence says, it works at the top: the base changes only under an empty stack, which otherwise gains one, loses from its end, or changes its newest |
| `Keyboards.ReleasesFollowTheFlags` | src/keyboard.rs:36-43 | flags added report releases if either did, flags taken away stop it if they hold that flag, and flags put in place decide |
| `Keyboards.Keyboard.Replay` | src/keyboard.rs:78-90 | the sequences for a base, a stack from the bottom up and xterm's level |
| `Keyboards.Output.Feed` | src/node/events.rs:167-246 | a chunk of output, wherever it breaks off, leaves the reader as reading its bytes one at a time does, a terminal reset with a new keyboard |
| `Keyboards.StackStaysShallow` | src/keyboard.rs:20-30 | whatever a program prints, at most sixteen sets of flags are kept |
| `Keyboards.PopUndoesPush` | src/keyboard.rs:25-34 | a pop undoes a push if and only if there was room for it |
| `Keyboards.ReplayRestores` | src/keyboard.rs:78-90 | a replay read by a fresh reader leaves it with the same base, stack and level, a level of nought being none |
| `Keyboards.ReplayedGoesOnAgreeing` | src/keyboard.rs:67-70 | a replay taken between sequences, and then any further output: the two agree on release reports and on every later replay |
| `Keyboards.AgreesExactlyBetweenSequences` | src/keyboard.rs:67-90 | for any output before, the two agree on all output after if and only if the replay was taken between sequences |
| `KeyboardLaws.PopDropsOne` | src/keyboard.rs:45-56 | `CSI < u` drops the newest flags |
| `KeyboardLaws.PopDropsMany` | src/keyboard.rs:32-56 | `CSI < n u` drops that many or all there are |
| `KeyboardLaws.PushAddsOnTop` | src/keyboard.rs:25-55 | `CSI > u` pushes none and `CSI > n u` those, the oldest of sixteen lost |
| `KeyboardLaws.SetChangesTheFlags` | src/keyboard.rs:36-62 | `CSI = f ; m u` adds, takes away or puts every bit of `f` in the flags in force, and nothing else changes |
| `KeyboardLaws.UnreadableModes` | src/keyboard.rs:57-61 | a mode that is no number is 1, and fields after it are nothing |
| `KeyboardLaws.UnreadableNumbers` | src/keyboard.rs:52-62 | with no number `=` changes nothing, `>` pushes none and `<` drops one |
| `Text.ParsesExactly` | src/keyboard.rs:52-61 | a field is a number if and only if it is that number's digits, after noughts and a plus or not, and it fits |
| `KeyboardLaws.OtherLeads` | src/keyboard.rs:45-65 | any other lead changes nothing |
| `KeyboardLaws.OtherFinals` | src/node/events.rs:255-310 | nor does a sequence that ends in anything but `u` or `m` |
| `KeyboardLaws.LevelIsSet` | src/node/events.rs:278-293 | `CSI > 4 ; n m` sets xterm's level, `CSI > 4 m` takes it away, and no other resource is about it |
| `KeyboardLaws.ResetForgetsAll` | src/node/events.rs:188-198 | a full reset leaves a keyboard nothing was asked of |
| `KeyboardLaws.TitlesAreSkipped` | src/node/events.rs:180-245 | a title up to its bell or `ESC \` holds nothing for the keyboard |
| `KeyboardLaws.StringsAreSkipped` | src/node/events.rs:185-251 | nor do the other strings, which a bell does not end |
| `KeyboardLaws.EscapesInStrings` | src/node/events.rs:234-251 | an escape inside a string that does not end it is part of it |
| `KeyboardLaws.OtherEscapes` | src/node/events.rs:183-199 | any other escape is one byte more and nothing |
| `KeyboardLaws.ControlsInSequences` | src/node/events.rs:201-219 | a control inside a sequence is no part of it |
| `KeyboardLaws.LongSequencesAreCut` | src/node/events.rs:206-212 | past sixty-four bytes a sequence is cut |

## Left out

- Processes, sockets, pipes and timers as such: ssh, tokio, signals and deadlines are the world's choices here.
- msgpack and TOML text: both are taken as encodings that decode back.
- `Pens.Selected`: does not say which colours can be read on the band, because luminance is floating point and only its verdict is used; the verdict is a parameter.
- `Popup.Of`: does not model the counts, titles and idle times beside the names, which nothing else depends on.
- `Popup.Machines`: does not model the counts and the wording beside a machine, for the same reason.
- `Popup.GroupRows`: does not model how many sessions a group is said to have.
- `AttachLoop.DoAttach`: does not model what each turn says on the row, the history it has already shown or the connections it keeps, none of which decides what comes next; which renames a listing implies is given to the turn.
- `Fanout.ListHosts`: does not tell the node which machines answered, since that reply is dropped; what a query does to reach its host is the outcome it is given.
- `Fanout.OrderDoesNotMatter`: does not cover one name asked twice, which only a hand-edited host list can hold.
- `ServiceWords.PathSurvivesBothReadings`: does not cover the rest of the rc.d template, whose variables the shell expands; words stand in for their values.
- `ServiceWords.SystemdWordReadsBack`: does not model the `$` substitution of command lines, which `systemd_word` leaves alone, nor numeric escapes, which it never writes.
- `Shell.JoinedWordsReadBack`: does not model aliases, reserved words and assignments, which are about what a first word means and not which words there are.
- `Keyboards.ReplayRestores`: does not model titles, private modes and the cursor style, which a replay also puts back and which pass through the same reader.
- Launchd's XML escaping, the clipboard's readers, target parsing and the tables of settings: members that would add nothing hard.
- The picker, the scroll view, the attach pump and the rest of the node.
