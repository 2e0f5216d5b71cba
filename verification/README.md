# A verified model of a church-service projection desk

The repository is a desktop application that keeps songs and service plans, imports lyrics, drives three
projection screens, and synchronises a local SQLite database with a PostgreSQL server. This project models the
parts of its desktop program that carry state, loops or a protocol, and proves what they guarantee.

`dafny verify dfyconfig.toml` checks everything. The files, bottom-up:

| files | what they model |
|---|---|
| `Seqs`, `Options` | shared vocabulary |
| `Text`, `Multiline`, `Blocks` | trimming, splitting and joining lines, `normalizeMultiline`, song blocks |
| `RepeatingChunk`, `RepeatBlocks` | the search for the repeated chunk and the walk that cuts lyrics at it |
| `Headings`, `HeadingWords`, `Sections` | the heading parser, what it reads as a heading, and the sections it cuts |
| `LyricsToBlocks`, `ParagraphRuns` | the paragraph parser, and which of the parsers answers |
| `Mojibake` | the repair of UTF-8 that was read in a one-byte encoding |
| `Labels`, `LabelTable`, `SongText`, `ExactLines`, `WordRoundTrip` | the field labels, the Word export, the import of its text, and the round trip |
| `Screens`, `Projection` | three screens with mirrors, locks and a live state; sending content to them |
| `Reorder`, `Plans`, `PlanRuns`, `PlanDates` | order numbers of plan items, every interleaving of the handlers, the day of a new plan |
| `PlanClient`, `ClientRuns` | the optimistic copy in the client: one call, and every interleaving of calls with the handlers |
| `Sync`, `PushLoop`, `Reconnect`, `SyncRuns` | push, pull, and any number of interrupted reconnects |
| `SyncStates` | the connection state under every interleaving of its awaited steps |
| `Json`, `Sanitizers`, `ProfileList`, `SettingsShape`, `Settings`, `SettingsQueue` | what the settings sanitisers let through, field by field, and the queue of patches to `settings.json` |

Code that assigns to state step by step is a class whose methods are proved against a function of the old state;
the theorems are then about that function, over every run. Code made of expressions is functions and lemmas.
`Screens`, `SyncStates`, `SettingsQueue`, `PlanRuns` and `ClientRuns` cut their asynchronous code at its awaits, so
that a run is any interleaving of the pieces.

## What the proofs found

- **A reorder commits only when it changes nothing.** The schema has a unique index on (planId, order), and
  SQLite checks it at every statement. `Plans.ReorderPerStatement` shows that the one-row-at-a-time updates of
  `plans:reorder` then succeed if and only if the requested order is the current one. With a check at commit they
  always succeed and give the requested order (`Plans.ReorderAtCommit`). Everything about runs is proved for both.
  Renumbering after a deletion never meets the problem (`Plans.RenumberNeverClashes`).
- **Mirrors follow their source only one hop.** Whatever is done short of giving it or its source another mirror, a
  mirror keeps showing what its source shows if and only if the source mirrors no third screen
  (`Screens.MirrorKeepsFollowingExactlyWithoutChain`).
- **A lock does not hold a mirror.** Whatever is done short of releasing it, a locked screen keeps its state if and
  only if it mirrors no other screen (`Screens.LockHoldsExactlyWithoutMirror`).
- **Two client calls at once can leave the plan list wrong for good.** With no call in flight the client's list is the
  server's in every run if and only if calls do not overlap (`ClientRuns.InStepExactlyWithoutOverlap`): an addition
  that refreshes before an earlier removal commits brings the removed item back to the screen, and the removal
  settles without a refresh.
- **Reading the last order and creating the row must be one step**: a plan stays dense if and only if the order read is
  still the last one when the row is created (`PlanRuns.AppendStaysDense`).
- **Two syncs can run at once exactly when two reconnect calls overlap**, as the timer and a manual retry may
  (`SyncStates.ExclusiveUnlessReconnectsOverlap`).
- **A plan made offline on a day that the server gave to another plan keeps every reconnect from succeeding**
  (`SyncRuns.TakenDateBlocksReconnect` with `SyncRuns.RetryIsOnePush`): the push fails on the same row each time.
- **A profile without a creation time is dated anew at every reading until some patch rewrites the file**
  (`Sanitizers.UndatedProfileDrifts`); the clock in `Settings.LastWriteReadsBack` is that of the first rewrite after
  the value was written.
- **A blank title does not survive the Word round trip**: the import replaces it by the file name.
  `WordRoundTrip.WordRoundTrip` gives the exact value.
- **Headings without lyrics may become lyrics.** `LyricsToBlocks.ParseLyricsToBlocks` conserves the lines if and only
  if the lyrics say something, or hold no heading, or have every heading in a paragraph of its own, with at least two
  paragraphs. "Refrain" alone is kept as a lyric line (`LyricsToBlocks.RefrainAloneIsReadAsLyrics`).
- **A settings write that breaks off takes every section with it** (`Settings.TornWriteLosesEverySection`): the file is
  no JSON then, and the next patch starts from an empty configuration.

## Reading notes

- Strings are sequences of Unicode scalar values. `canonicalLabel` takes canonical decomposition, the removal of
  combining marks and lower-casing as one parameter `fold`; what is asked of it (`FoldsAscii`) is that it
  lower-cases a leading ASCII part on its own. The parsers take the resulting label as a parameter `canon` whose
  values hold no line break, and `Labels.CanonicalIsLineLike` shows that `canonicalLabel` is one.
- The heading pattern has no word boundary, so "Pontife" is a heading "Pont" with the inline text "ife". The model
  keeps that.
- `coverage < 0.18` is a comparison of integers. Timestamps are integers, days are day numbers, and each reading of
  the clock is a parameter.
- Text extraction from a Word file is any list of lines that keeps the paragraphs in order and may put blank lines
  between them (`Padded`).
- The line to the server answers some number of queries and then drops (`Replicas.answers`), which covers a
  failure at any row. The server also refuses a row whose date is taken, whose part ids are taken, or whose song is
  unknown (`Accepts`). The rows of a table come in any order.
- A settings patch ends in one of three ways: written, nothing written, or a write broken off midway, which leaves a
  file that is no JSON. The fold over the finished patches takes all three into account.

## Model

| member | source | states |
|---|---|---|
| Text.NormalizeWhitespaceFixpoint | apps/desktop/src/main/ipc/songs-meta.ts:19-21 | the result is tight and single-spaced, and normalising again changes nothing |
| Text.NormalizeKeepsWords | apps/desktop/src/main/ipc/songs-meta.ts:19-21 | the words, cut at white space, are the same before and after |
| Multiline.NormalizeMultilineFixpoint | apps/desktop/src/main/ipc/songs-meta.ts:23-29 | every input reaches the normal form, the fixed points are exactly the normal forms, and the function is idempotent |
| Multiline.NormalizeKeepsContent | apps/desktop/src/main/ipc/songs-meta.ts:23-29 | no non-blank line is lost, added or moved |
| Multiline.BreaksAreUnified | apps/desktop/src/main/ipc/songs-meta.ts:23-29 | wherever they stand, a carriage return with its line feed, a lone carriage return and a lone line feed become one break each |
| Multiline.NormalPair | apps/desktop/src/main/ipc/songs-export.ts:19-22 | two non-empty normal texts joined by a blank line are normal |
| SongText.NormalizeYearFixpoint | apps/desktop/src/main/ipc/songs-meta.ts:31-40 | a normalised year is empty or four digits, and is a fixed point |
| SongText.YearIsFirst | apps/desktop/src/main/ipc/songs-meta.ts:31-40 | the year is the first of 19xx to 21xx that is a word of its own, and failing that the digits of the value when there are four |
| RepeatingChunk.GroupByKey | apps/desktop/src/main/ipc/songs-import.ts:383-394 | the table holds each key once, in order of first occurrence, with all the positions of its chunk in ascending order |
| RepeatingChunk.KeyIsFaithful | apps/desktop/src/main/ipc/songs-import.ts:386 | two chunks have the same key exactly when they agree line by line in canonical form |
| RepeatingChunk.KeepNonOverlapping | apps/desktop/src/main/ipc/songs-import.ts:397-401 | the greedy scan keeps occurrences that do not overlap, starts with the first, and every occurrence overlaps one it kept |
| RepeatingChunk.GreedyIsMaximum | apps/desktop/src/main/ipc/songs-import.ts:397-401 | no set of non-overlapping occurrences is larger than the greedy one |
| RepeatingChunk.SearchLength | apps/desktop/src/main/ipc/songs-import.ts:396-416 | after the groups of one length the best chunk is sound and beats every repetition of that length or more |
| RepeatingChunk.FindBestRepeatingChunk | apps/desktop/src/main/ipc/songs-import.ts:378-420 | the chunk has the highest count times length of all repetitions of length 2 to min(8, n/2) that pass the filters, the longer one on a tie, and None only when there is none |
| RepeatBlocks.FlushVerse | apps/desktop/src/main/ipc/songs-import.ts:439-451 | the pending verse lines become one block, and the walk so far still reads like the lyrics |
| RepeatBlocks.Walk | apps/desktop/src/main/ipc/songs-import.ts:433-472 | the blocks partition the lines in order, one CHORUS for each kept occurrence, numbered from 1, and there are at least two, so the result is never null here |
| RepeatBlocks.ParseLyricsByRepeatingChunk | apps/desktop/src/main/ipc/songs-import.ts:422-473 | it gives a result exactly when there are six lines and something repeats, and then a partition at the best repetition |
| RepeatBlocks.WellMadeIsTitled | apps/desktop/src/main/ipc/songs-import.ts:439-464 | verses are Couplet 1, 2 and so on, choruses Refrain, Refrain 2 and so on, counted apart |
| Headings.HeadingIgnoresFallback | apps/desktop/src/main/ipc/songs-import.ts:255-284 | whether a line is a heading, its kind and its inline text do not depend on the fallback number |
| HeadingWords.HeadingReads | apps/desktop/src/main/ipc/songs-import.ts:255-284 | a line that begins with one of the six words in any ASCII case, with any blanks, number, separator and inline text, is a heading with the kind of the word, the French title and that text |
| HeadingWords.OnlyTheSixWords | apps/desktop/src/main/ipc/songs-import.ts:255-257 | nothing else is a heading |
| Headings.VerseHeadingNumber | apps/desktop/src/main/ipc/songs-import.ts:279-283 | a verse heading has a number, which is the fallback one when it states none |
| Headings.FlushCurrent | apps/desktop/src/main/ipc/songs-import.ts:322-332 | the flush closure on its captured variables, as the specification's Flush |
| Headings.TakeLine | apps/desktop/src/main/ipc/songs-import.ts:334-367 | one turn of the loop on its variables, as the specification's Turn |
| Headings.ParseLyricsByHeadings | apps/desktop/src/main/ipc/songs-import.ts:311-372 | the loop computes the run of the specification, and null exactly for no heading or no block |
| Headings.RunConserves | apps/desktop/src/main/ipc/songs-import.ts:334-367 | at every point of the loop blocks and pending lines hold exactly what the lines so far say, and no block is empty |
| Headings.RunNormal | apps/desktop/src/main/ipc/songs-import.ts:322-332 | every block content is a fixed point of normalizeMultiline |
| Headings.HeadingsConserveLyrics | apps/desktop/src/main/ipc/songs-import.ts:311-372 | the blocks read back to the non-heading lines with inline heading text in place, are non-empty and numbered from 1 |
| Headings.UnnumberedVerseIsHighest | apps/desktop/src/main/ipc/songs-import.ts:341-353 | an unnumbered verse heading gets a number above that of every verse opened before it |
| Sections.BlocksAreSections | apps/desktop/src/main/ipc/songs-import.ts:311-372 | the blocks are the sections that say something, in order, with their kind, their title and exactly their lines |
| Sections.HeadingToHeading | apps/desktop/src/main/ipc/songs-import.ts:338-358 | a heading opens one section, which holds its inline text and every line up to the next heading |
| Sections.BeforeHeadings | apps/desktop/src/main/ipc/songs-import.ts:361-366 | what is said before the first heading is the verse Couplet 1 |
| Sections.UnnumberedVerseIsNext | apps/desktop/src/main/ipc/songs-import.ts:338-353 | a verse heading without a number is titled one above the highest verse before it, and no higher |
| LyricsToBlocks.SplitBlocksKeeps | apps/desktop/src/main/ipc/songs-import.ts:201-206 | splitting into paragraphs loses no line |
| ParagraphRuns.ParagraphsAreRuns | apps/desktop/src/main/ipc/songs-import.ts:201-206 | the paragraphs are the maximal runs of lines that are not blank, in order |
| LyricsToBlocks.ParagraphKeepsContent | apps/desktop/src/main/ipc/songs-import.ts:286-309 | a paragraph without headings becomes a block with the same lines |
| LyricsToBlocks.ParagraphDropsHeading | apps/desktop/src/main/ipc/songs-import.ts:286-309 | a paragraph of bare headings loses its first line and keeps the others as lyrics |
| LyricsToBlocks.ParagraphShows | apps/desktop/src/main/ipc/songs-import.ts:286-309 | a paragraph becomes a block with the kind, title and inline text of a heading on its first line and the other lines, or a numbered verse with all its lines |
| LyricsToBlocks.ParseLyricsToBlocks | apps/desktop/src/main/ipc/songs-import.ts:475-496 | which parser answers: when something is said under headings the blocks are the sections; otherwise with several paragraphs they are the paragraphs, one verse each when there is no heading; otherwise with six lines and a repetition they are the partition at a chunk that beats every other; otherwise the whole text is one verse. In any case orders are 1 to n, and the blocks say what the lyrics say if and only if something is said, or there is no heading, or there are several paragraphs of one line each |
| LyricsToBlocks.HeadingAloneIsReadAsLyrics | apps/desktop/src/main/ipc/songs-import.ts:475-496 | any line that is a bare heading, alone, comes back as a lyric line |
| LyricsToBlocks.RefrainAloneIsReadAsLyrics | apps/desktop/src/main/ipc/songs-import.ts:495 | the input Refrain is such a line: nothing is said, and the block says it |
| Mojibake.DecodeEncode | apps/desktop/src/main/ipc/songs-import.ts:160-168 | decoding the UTF-8 bytes of a text gives the text (section 3 of RFC 3629) |
| Mojibake.CountOccurrences | apps/desktop/src/main/ipc/songs-import.ts:106-116 | the indexOf loop counts the non-overlapping occurrences from the left |
| Mojibake.CountMojibakeMarkers | apps/desktop/src/main/ipc/songs-import.ts:118-126 | the score is the sum over the tokens and controls, and equals the number of positions where a marker begins, the markers being written out |
| Mojibake.ScoreIsMarks | apps/desktop/src/main/ipc/songs-import.ts:96-126 | non-overlapping counting from the left counts exactly the positions where a marker begins |
| Mojibake.UnmarkedScoresNothing | apps/desktop/src/main/ipc/songs-import.ts:96-126 | the score is 0 if and only if no marker begins anywhere |
| Mojibake.ToLikelyLatin1Bytes | apps/desktop/src/main/ipc/songs-import.ts:128-148 | the loop gives the byte of every character, or null when one has none |
| Mojibake.MaybeRepairMojibake | apps/desktop/src/main/ipc/songs-import.ts:150-174 | unmarked text that holds a character from U+0080 to U+00FF or U+2000 to U+203F comes back from its Windows-1252 and its Latin-1 reading, unmarked text is left alone, at most one U+FFFD is added; the branches compute Repaired |
| Mojibake.RepairNeverWorse | apps/desktop/src/main/ipc/songs-import.ts:150-174 | no result scores higher than its source without byte order mark |
| Mojibake.RepairInvertsDamage | apps/desktop/src/main/ipc/songs-import.ts:150-174 | text without U+FFFD whose bytes were misread is recovered exactly when the misreading raised the score or changed nothing |
| Mojibake.RepairInvertsReadings | apps/desktop/src/main/ipc/songs-import.ts:128-174 | the same for every text read as Windows-1252 and as Latin-1 |
| Mojibake.AccentedTextIsRecovered | apps/desktop/src/main/ipc/songs-import.ts:118-174 | marker-free text with at least one character from U+0080 to U+00FF is always recovered |
| Mojibake.TelltaleTextIsRecovered | apps/desktop/src/main/ipc/songs-import.ts:118-174 | the same for typographic signs from U+2000 to U+203F, under any misreading of the bytes |
| Mojibake.ApostropheIsRecovered | apps/desktop/src/main/ipc/songs-import.ts:150-174 | the three characters that the curly apostrophe is misread as become the apostrophe again |
| Labels.CanonicalIsLineLike | apps/desktop/src/main/ipc/songs-import.ts:194-199 | canonical labels hold no line break, which is what the chunk keys rely on |
| LabelTable.KnownLabels | apps/desktop/src/main/ipc/songs-import.ts:208-243 | which field each of the French and English labels names |
| SongText.ParseSongText | apps/desktop/src/main/ipc/songs-import.ts:530-609 | every field is the normalised first non-empty value under its label, the lyrics read as the lines from where they begin, text that begins without a label is lyrics as a whole, each warning is given exactly for its reason, and the blocks answer as parseLyricsToBlocks states |
| SongText.SongReads | apps/desktop/src/main/ipc/songs-import.ts:530-609 | what the loop over the lines leaves in each field and in the lyrics |
| SongText.FirstValueAt | apps/desktop/src/main/ipc/songs-import.ts:556-570 | the value of a field, by position: the first header line with its label and a value |
| SongText.LyricsAt | apps/desktop/src/main/ipc/songs-import.ts:544-580 | the lyrics, by position: k header lines, then the line that opens them with an inline value if it has one, or the first line that is no header, and all that follows |
| SongText.FieldReads | apps/desktop/src/main/ipc/songs-import.ts:551 | a name of up to 120 characters, a colon, blanks and a value on one line are read as that name and value |
| SongText.UnlabelledTextIsLyrics | apps/desktop/src/main/ipc/songs-import.ts:573-576 | text whose first non-blank line has no label loses no line |
| ExactLines.NormalizeKeepsExactLines | apps/desktop/src/main/ipc/songs-meta.ts:23-29 | for lines without trailing pads the non-blank ones come through to the letter |
| WordRoundTrip.ExportedLyricsAreNormal | apps/desktop/src/main/ipc/songs-export.ts:18-23 | the exported lyrics are a fixed point of normalizeMultiline |
| WordRoundTrip.ExportKeepsContent | apps/desktop/src/main/ipc/songs-export.ts:18-23 | exporting says what the blocks say, carriage returns in them being line breaks |
| WordRoundTrip.ReadsBack | apps/desktop/src/main/ipc/songs-export.ts:25-49 | reading the extracted document sets the four fields and collects the lyric paragraphs |
| WordRoundTrip.WordRoundTrip | apps/desktop/src/main/ipc/songs-import.ts:530-609 | export then import gives back normalised title, artist, album and year and the exact non-blank lyric lines |
| WordRoundTrip.RoundTripWarnings | apps/desktop/src/main/ipc/songs-import.ts:583-595 | the import of an exported song warns exactly of a blank title that the file name replaces and of missing lyrics |
| Screens.ScreenContext.ApplyMirrorsFrom | apps/desktop/src/main/ipc/screenState.ts:74-83 | the loop copies the source to its direct mirrors only, each with its own time, and broadcasts them |
| Screens.ScreenContext.Change | apps/desktop/src/main/ipc/screenState.ts:93-198 | the five guarded mutations: refused for a mirror first, then for a lock, otherwise edited, broadcast and propagated |
| Screens.ScreenContext.ChangeMirror | apps/desktop/src/main/ipc/screenState.ts:200-211 | no guard; the new mirror takes over the source's picture at once |
| Screens.ScreenContext.ApplyLiveProjectionMode | apps/desktop/src/main/ipc/screenState.ts:217-227 | only the target's mode changes, and only when it is FREE and unlocked |
| Screens.ScreenContext.MergeLive | apps/desktop/src/main/ipc/screenState.ts:229-245 | black and white push each other out and the cursor is clamped before the mode is applied |
| Screens.ScreenContext.Handle | apps/desktop/src/main/main.ts:1074-1112 | every command is one step of the transition function |
| Screens.LiveCommandShows | apps/desktop/src/main/ipc/screenState.ts:217-245 | after any live command a FREE unlocked target is black, white or normal exactly as the live state says, its mirrors with it, and nothing else on any screen has changed |
| Screens.LiveCommandFields | apps/desktop/src/main/main.ts:1074-1112 | what each command does to enabled, plan, target, cursor, black, white and locks |
| Screens.EditDoes | apps/desktop/src/main/ipc/screenState.ts:93-198 | an edit is refused exactly on a mirror or a locked screen; otherwise it changes what it names, on its screen and the direct mirrors |
| Screens.AppearanceIsRepainted | apps/desktop/src/main/ipc/screenState.ts:151-184 | each style value is the patch's if it gives one, otherwise the old one, otherwise the default |
| Screens.MirrorDoes | apps/desktop/src/main/ipc/screenState.ts:200-211 | a mirror takes over the source's picture, freeing a screen changes no picture |
| Screens.RunStaysConsistent | apps/desktop/src/main/ipc/screenState.ts:229-245 | in every run black and white are never both on, and the control window's copies equal the screens |
| Screens.MirrorsFollowFreeSources | apps/desktop/src/main/ipc/screenState.ts:74-83 | in every run a mirror of a screen that stayed FREE since it was set equals it up to updatedAt |
| Screens.StartUpMirrorsFollow | apps/desktop/src/main/main.ts:100-112 | from start-up on B and C show what A shows until they or A are given another mirror |
| Screens.MirrorOfMirrorGoesStale | apps/desktop/src/main/ipc/screenState.ts:74-83 | with A FREE, B mirroring A and C mirroring B, new text on A reaches B and not C |
| Screens.LockedScreensStandStill | apps/desktop/src/main/ipc/screenState.ts:93-97 | in every run a locked FREE screen keeps its whole state until it is unlocked or given a mirror |
| Screens.LockingDoesNotMove | apps/desktop/src/main/main.ts:1108-1112 | the locking command itself leaves the FREE screen as it is |
| Screens.LockedMirrorStillMoves | apps/desktop/src/main/ipc/screenState.ts:74-83 | a locked mirror is overwritten when its source changes |
| Screens.LockHoldsExactlyWithoutMirror | apps/desktop/src/main/ipc/screenState.ts:74-97 | a locked screen stands still in every run that does not release it if and only if it mirrors no other screen |
| Screens.MirrorKeepsFollowingExactlyWithoutChain | apps/desktop/src/main/ipc/screenState.ts:74-83 | a mirror keeps showing its source's picture in every run that leaves both mirrors alone if and only if the source mirrors no third screen |
| Projection.ProjectToScreen | apps/desktop/src/renderer/src/projection/target.ts:28-69 | the awaited calls, with other commands in between, compute the specification, and nothing happens when the caller knows the lock |
| Projection.SendReaches | apps/desktop/src/main/ipc/screenState.ts:99-116 | content sent to a FREE unlocked screen shows there and on its direct mirrors and nowhere else |
| Projection.ProjectionDelivers | apps/desktop/src/renderer/src/projection/target.ts:48-69 | whatever happens between lookup and send, the target shows the content exactly when the destination found is still right or has become a mirror |
| Projection.UndisturbedProjectionDelivers | apps/desktop/src/renderer/src/projection/routing.ts:3-12 | undisturbed, content for a target whose destination is FREE and unlocked is shown in NORMAL mode |
| Projection.TargetIsReached | apps/desktop/src/renderer/src/projection/target.ts:28-69 | a FREE unlocked target, or B or C mirroring a FREE unlocked screen, shows the content |
| Projection.OnlyAWithoutApi | apps/desktop/src/renderer/src/projection/target.ts:28-46 | without the screens API everything goes to screen A |
| Projection.RetryCoversNewMirror | apps/desktop/src/renderer/src/projection/target.ts:58-68 | the retry delivers when the target becomes a mirror of a FREE unlocked screen between lookup and send |
| Reorder.MoveArrayIsOneMove | apps/desktop/src/renderer/src/lib/reorder.ts:16-22 | one element moves to its new index, the others keep their order, and the result is a permutation |
| Reorder.MapVisible | apps/desktop/src/renderer/src/lib/reorder.ts:36-43 | the cursor loop weaves the moved visible ids into the hidden ones |
| Reorder.WeaveIsPermutation | apps/desktop/src/renderer/src/lib/reorder.ts:34-43 | weaving gives a permutation that keeps every hidden id at its index and holds the moved ids in their order |
| Reorder.ReorderIsOneMove | apps/desktop/src/renderer/src/lib/reorder.ts:24-61 | for distinct ids and a visible subset the result is a permutation with one visible move, hidden items stay, new orders are 1 to n, and the server's validator accepts it |
| Reorder.ReorderNeedsBothEnds | apps/desktop/src/renderer/src/lib/reorder.ts:28-50 | null exactly when an end of the move is not among the items shown |
| Reorder.ValidateAcceptsPermutations | apps/desktop/src/main/ipc/reorderValidation.ts:1-17 | a request is accepted exactly when it is a permutation of the current ids |
| Plans.FindMany | apps/desktop/src/main/ipc/plans.ts:284-288 | the query lists every item of the plan once, by ascending order |
| Plans.RenumberNeverClashes | apps/desktop/src/main/ipc/plans.ts:289-294 | renumbering the remaining items in ascending order never gives two items the same order, not even midway |
| Plans.RenumberMakesDense | apps/desktop/src/main/ipc/plans.ts:284-294 | afterwards the orders are exactly 1 to n in the old sequence, other plans untouched |
| Plans.RemoveFilters | apps/desktop/src/main/ipc/plans.ts:298-326 | the plan's list after deletion is the old list without the removed ids |
| Plans.ReorderPerStatement | apps/desktop/prisma/schema.prisma:75 | with the unique index checked at every statement a permutation commits if and only if it is the current order |
| Plans.ReorderAtCommit | apps/desktop/src/main/ipc/plans.ts:328-345 | with the index checked at commit a permutation always commits and becomes the plan's list |
| PlanRuns.PlanStore.CreatePlanItemWithRetry | apps/desktop/src/main/ipc/plans.ts:66-104 | for any tables that others leave between reading and creating: each attempt before the last met a row at the order it computed, the last creates the row after the last order it read, and it fails exactly without the plan or when every attempt was overtaken |
| PlanRuns.PlanStore.Attempt | apps/desktop/src/main/ipc/plans.ts:73-96 | one attempt reads the last order and creates the next one, unless it is taken by then or the plan is missing |
| PlanRuns.AddedAlone | apps/desktop/src/main/ipc/plans.ts:71-96 | an isolated call appends the row at its first attempt |
| PlanRuns.AppendStaysDense | apps/desktop/src/main/ipc/plans.ts:74-80 | the plan stays dense if and only if the order read is still the last one |
| PlanRuns.PlanStore.ImportLines | apps/desktop/src/main/ipc/plans.ts:381-419 | each line of the file is added at the end of the plan as other handlers have left it by then; nothing happens without the plan or for an empty file |
| PlanRuns.UndisturbedImport | apps/desktop/src/main/ipc/plans.ts:408-417 | with no other handler in between the lines follow the plan's items in the order of the file |
| PlanRuns.PlanStore.RunUpdates | apps/desktop/src/main/ipc/plans.ts:341-343 | the updates of a transaction all happen or none does |
| PlanRuns.PlanStore.DeleteAndRenumber | apps/desktop/src/main/ipc/plans.ts:280-294 | the transaction of a removal: delete, list, renumber, always committed |
| PlanRuns.PlanStore.RemoveItem | apps/desktop/src/main/ipc/plans.ts:271-296 | an unknown id is a success without effect, an item of another plan is refused |
| PlanRuns.PlanStore.RemoveItems | apps/desktop/src/main/ipc/plans.ts:298-326 | refused exactly when some id belongs to another plan, nothing for an empty request |
| PlanRuns.PlanStore.CheckReorder | apps/desktop/src/main/ipc/plans.ts:328-339 | the request is checked against the plan's current list |
| PlanRuns.OrdersStayDense | apps/desktop/src/main/ipc/plans.ts:271-345 | in every interleaving of add, remove, batch remove, duplication and reorder in two halves, every plan's orders are exactly 1 to n at each transaction boundary, in both modes of the index |
| PlanRuns.EmptyIsInv | apps/desktop/src/main/ipc/plans.ts:195-214 | the empty database starts such runs |
| PlanRuns.CopiedRows | apps/desktop/src/main/ipc/plans.ts:123-140 | the loop of a duplication creates every item of the base at the same order in the new plan and touches no other row |
| PlanRuns.DuplicateKeepsInv | apps/desktop/src/main/ipc/plans.ts:106-154 | the copy of a plan, read at any earlier moment, is dense, and the others stay so |
| PlanRuns.StaleReorderRollsBack | apps/desktop/src/main/ipc/plans.ts:340-343 | a reorder one of whose items was removed since its check changes nothing |
| PlanRuns.UndisturbedReorder | apps/desktop/src/main/ipc/plans.ts:328-345 | what an accepted reorder does when nothing came between its halves, in both modes of the index |
| PlanDates.PlanTable.CreatePlan | apps/desktop/src/main/ipc/plans.ts:195-214 | the least free day at or after the requested one, or a failure exactly when 3660 days are taken, leaving the table as it was |
| PlanDates.PlanTable.TryDuplicate | apps/desktop/src/main/ipc/plans.ts:118-146 | one attempt copies the plan and all its items at the same orders, or nothing |
| PlanDates.PlanTable.DuplicatePlan | apps/desktop/src/main/ipc/plans.ts:106-154 | the copy of a plan with distinct orders lands on the least free day with the full item list, and fails exactly when 3660 days are taken |
| PlanDates.LeastFreeIsUnique | apps/desktop/src/main/ipc/plans.ts:195-214 | the least free day is one day |
| PlanDates.LeastFreeExists | apps/desktop/src/main/ipc/plans.ts:201-213 | there is one unless every day tried is taken |
| PlanDates.DensePlanReadsDense | apps/desktop/src/main/ipc/plans.ts:123-140 | the items of a plan in the store read as orders 1 to n, distinct, so that such a plan can be duplicated |
| PlanClient.PlanProvider.AddItem | apps/desktop/src/renderer/src/contexts/PlanContext.tsx:74-84 | an add that no other call overlaps, settled either way, ends with the client's list equal to the server's |
| PlanClient.PlanProvider.RemoveItem | apps/desktop/src/renderer/src/contexts/PlanContext.tsx:132-142 | when no other call overlaps, the optimistic filter ends as the server's delete and renumber, or is undone by the refresh |
| PlanClient.PlanProvider.RemoveItems | apps/desktop/src/renderer/src/contexts/PlanContext.tsx:144-155 | the same for a batch, when no other call overlaps |
| PlanClient.PlanProvider.Reorder | apps/desktop/src/renderer/src/contexts/PlanContext.tsx:157-174 | when no other call overlaps, the optimistic sort ends as the server's list, or is undone by the refresh |
| PlanClient.SortByPermutation | apps/desktop/src/renderer/src/contexts/PlanContext.tsx:157-166 | sorting distinct items by their place in a permutation of them gives that permutation |
| PlanClient.FilteredIsWithout | apps/desktop/src/renderer/src/contexts/PlanContext.tsx:144-149 | the client's filter is the list without the removed ids |
| ClientRuns.CommitSettles | apps/desktop/src/renderer/src/contexts/PlanContext.tsx:132-174 | the transaction that answers a call makes of the server's list what the client already shows, or the client refreshes |
| ClientRuns.RunsStaySteady | apps/desktop/src/renderer/src/contexts/PlanContext.tsx:74-174 | in every run without overlapping calls, with handlers failing anywhere, what the client shows fits the stage of its call |
| ClientRuns.OverlappingCallsLoseStep | apps/desktop/src/renderer/src/contexts/PlanContext.tsx:74-142 | with two calls in flight a run ends with an item on screen that the server has deleted |
| ClientRuns.InStepExactlyWithoutOverlap | apps/desktop/src/renderer/src/contexts/PlanContext.tsx:74-174 | with no call in flight the client's list is the server's, in every run, if and only if at most one call is in flight at a time |
| Reconnect.Replicas.Create | apps/desktop/src/main/sync/pushSync.ts:61-87 | one remote row with its parts, or nothing: exactly when the line holds and no index or foreign key refuses it |
| Reconnect.Replicas.PushTable | apps/desktop/src/main/sync/pushSync.ts:53-93 | one push loop, rows in any order: what has been created is some of the missing rows, and at the end all of them; it ends exactly when the line answers one query per changed and one per missing row and none is refused; both counts are exact |
| PushLoop.KnownRow | apps/desktop/src/main/sync/pushSync.ts:88-92 | a turn on a row that the server has only counts it, exactly when the local one is newer |
| PushLoop.NewRow | apps/desktop/src/main/sync/pushSync.ts:61-87 | a turn on a missing row creates it, unless the server would have refused it from the start |
| Reconnect.Replicas.PushOfflineChanges | apps/desktop/src/main/sync/pushSync.ts:41-144 | songs, then plans; success exactly for a line that lasts and rows that are all accepted, with exact result and counts, and the push time saved beside the pull time |
| Reconnect.Replicas.CopyTable | apps/desktop/src/main/sync/pullSync.ts:49-64 | the nested insert loops rebuild the whole table, heads and parts |
| Reconnect.Replicas.PullFromPostgres | apps/desktop/src/main/sync/pullSync.ts:14-88 | the local tables become the remote ones, or stay as they were |
| Reconnect.Replicas.PushThenPull | apps/desktop/src/main/sync/syncManager.ts:49-54 | success: both sides equal the old remote plus what was pushed, conflicts counted, pull time saved; failure: local rows and pull time untouched |
| Sync.AcceptsIsStable | apps/desktop/src/main/sync/pushSync.ts:59-87 | creating other rows of the same push never makes the server accept or refuse a row |
| Sync.RetryFinishes | apps/desktop/src/main/sync/pushSync.ts:46-139 | on one table, the push after an interrupted one has the rest of the same rows to send and the same conflicts |
| SyncRuns.RetryIsOnePush | apps/desktop/src/main/sync/pushSync.ts:41-144 | a push stopped after any rows leaves the next one the same remote result, the same overwritten count, and the same chance of being refused |
| SyncRuns.StoppedAgain | apps/desktop/src/main/sync/pushSync.ts:41-144 | two interrupted pushes are together one interrupted push |
| SyncRuns.KeepReconnecting | apps/desktop/src/main/main.ts:463-467 | however often the line broke, the first successful reconnect ends as one uninterrupted reconnect would, with the same count, and one lasting line is enough |
| SyncRuns.ReconnectAddsExactly | apps/desktop/src/main/sync/pushSync.ts:46-139 | the remote tables are the old ones unchanged plus exactly the changed local rows whose ids were absent, with their parts |
| SyncRuns.PushAfterReconnectIsIdle | apps/desktop/src/main/sync/syncManager.ts:42-65 | once both sides agree a push creates nothing and overwrites nothing |
| SyncRuns.TakenDateBlocksReconnect | apps/desktop/prisma/schema.pg.prisma:44 | a changed local plan that the server lacks, on a day the server has given to another plan, makes the push fail |
| SyncStates.SyncManager.Initialize | apps/desktop/src/main/sync/syncManager.ts:17-25 | OFFLINE when not configured, otherwise a pending probe with the state still at its initial ONLINE |
| SyncStates.SyncManager.CheckAndReconnect | apps/desktop/src/main/sync/syncManager.ts:42-45 | the guard before the first await |
| SyncStates.SyncManager.PeriodicPull | apps/desktop/src/main/sync/syncManager.ts:67-69 | guard and SYNCING in one stretch |
| SyncStates.SyncManager.Probed | apps/desktop/src/main/sync/syncManager.ts:25-48 | what each kind of call does with the answer of its probe |
| SyncStates.SyncManager.PushSettled | apps/desktop/src/main/sync/syncManager.ts:50-51 | on to the pull, or SYNC_ERROR |
| SyncStates.SyncManager.PullSettled | apps/desktop/src/main/sync/syncManager.ts:70-77 | ONLINE only with the timestamp saved, otherwise SYNC_ERROR |
| SyncStates.ReconnectEnds | apps/desktop/src/main/sync/syncManager.ts:42-65 | a reconnect from its guard to its end: nothing when ONLINE or SYNCING or unanswered, SYNC_ERROR without a pull when the push fails, and then ONLINE with the time saved or SYNC_ERROR as the pull ends |
| SyncStates.PeriodicPullEnds | apps/desktop/src/main/sync/syncManager.ts:67-79 | the same for the periodic pull, which needs ONLINE |
| SyncStates.InitialPullEnds | apps/desktop/src/main/sync/syncManager.ts:25-39 | the same at start-up |
| SyncStates.PullFollowsPush | apps/desktop/src/main/sync/syncManager.ts:42-53 | in every run, however calls overlap, a reconnect pulls only after its own push went through, and nothing else pushes |
| SyncStates.StepStaysHonest | apps/desktop/src/main/sync/syncManager.ts:42-83 | ONLINE is entered only by a completed pull whose timestamp was saved; SYNCING always has a call behind it; however calls overlap |
| SyncStates.RunsStayHonest | apps/desktop/src/main/sync/syncManager.ts:17-83 | the same in every reachable state |
| SyncStates.RunsStaySingle | apps/desktop/src/main/sync/syncManager.ts:42-83 | when reconnect calls do not overlap, at most one call is in flight in every reachable state, and the state says how far it is |
| SyncStates.ExclusiveUnlessReconnectsOverlap | apps/desktop/src/main/sync/syncManager.ts:43-48 | at most one sync is active in every run if and only if at most one reconnect call is in flight at a time |
| SyncStates.SyncingStep | apps/desktop/src/main/sync/syncManager.ts:49-83 | while SYNCING only the sync in flight can do anything, and each of its steps ends it or leaves one fewer |
| SyncStates.SyncingIsLeft | apps/desktop/src/main/sync/syncManager.ts:49-83 | the second push or pull to settle ends SYNCING at the latest |
| Sanitizers.PrefsSettle | apps/desktop/src/main/settings.ts:196-233 | the appearance sanitiser accepts its own output unchanged, and that output survives JSON |
| Sanitizers.ProjectionSettles | apps/desktop/src/main/settings.ts:235-247 | the same for the screens of the projection section |
| Sanitizers.MirrorsSettle | apps/desktop/src/main/settings.ts:249-268 | the same for mirrors |
| Sanitizers.ShortcutsSettle | apps/desktop/src/main/settings.ts:130-150 | the same for key bindings by action |
| Sanitizers.TemplatesSettle | apps/desktop/src/main/settings.ts:152-190 | the same for plan templates and their items |
| Sanitizers.ProfileIsFixed | apps/desktop/src/main/settings.ts:270-303 | a sanitised profile is left alone by every later reading, whatever the clock says then |
| Sanitizers.UndatedProfileDrifts | apps/desktop/src/main/settings.ts:276-280 | readings at different times agree if and only if the profile has a numeric creation time |
| SettingsShape.PrefsRead | apps/desktop/src/main/settings.ts:196-233 | the appearance is read field by field: a valid value is kept as it is, an invalid one left out, nothing invented; left alone exactly when every field is valid |
| SettingsShape.ScreensRead | apps/desktop/src/main/settings.ts:235-247 | the same for the three screens |
| SettingsShape.MirrorsRead | apps/desktop/src/main/settings.ts:249-268 | the same for mirrors |
| SettingsShape.ShortcutsRead | apps/desktop/src/main/settings.ts:130-150 | the same for key bindings |
| SettingsShape.TemplatesRead | apps/desktop/src/main/settings.ts:152-190 | the valid templates are kept in order, each with its valid items; left alone exactly when all are valid |
| SettingsShape.ProfileRead | apps/desktop/src/main/settings.ts:270-303 | every field of a profile, with its default when it is missing or invalid |
| SettingsShape.ProfilesRead | apps/desktop/src/main/settings.ts:305-329 | a profile list is left alone exactly when all profiles are valid, their ids differ and the active id names one of them |
| SettingsShape.FirstStays | apps/desktop/src/main/settings.ts:306-311 | of the entries with one id the first stays |
| ProfileList.DropDuplicates | apps/desktop/src/main/settings.ts:306-311 | the filter with its set of seen ids keeps each id's first entry |
| ProfileList.FirstOfEachIsDistinct | apps/desktop/src/main/settings.ts:306-311 | no id is lost, none is left twice, nothing is invented |
| ProfileList.ActiveExists | apps/desktop/src/main/settings.ts:313-317 | a non-empty active id names an entry that exists, and normalising again changes nothing |
| ProfileList.ProfilesAreFixed | apps/desktop/src/main/settings.ts:320-329 | the whole section, duplicates and active id included, is a fixed point at every later time |
| Settings.SanitisedSectionIsFixed | apps/desktop/src/main/settings.ts:335-370 | every section reads back from JSON as it was read |
| Settings.FixedExactlyWhenWellFormed | apps/desktop/src/main/settings.ts:335-370 | a section is left alone if and only if its value is valid, field by field |
| Settings.SanitisedIsWellFormed | apps/desktop/src/main/settings.ts:335-370 | whatever is read is valid |
| Settings.VersionIs | apps/desktop/src/main/settings.ts:343-344 | the version is a whole number from 1 up, the file's if it is one |
| Settings.RewriteKeepsConfig | apps/desktop/src/main/settings.ts:335-381 | a configuration read and written back reads the same ever after, at version 1 |
| Settings.FailedPatchesDoNothing | apps/desktop/src/main/settings.ts:387-395 | as long as no write breaks off, the fold of all patches is the fold of the successful ones |
| Settings.TornWriteRestarts | apps/desktop/src/main/settings.ts:377-395 | in general the file is the fold of the successful patches since the last torn write, begun from a broken file if there was one |
| Settings.TornWriteLosesEverySection | apps/desktop/src/main/settings.ts:335-370 | after a torn write a reading finds no section at all |
| Settings.UntouchedSectionReadsBack | apps/desktop/src/main/settings.ts:387-395 | through any sequence of patches that spare a section it reads as at its first reading |
| Settings.OtherSectionsAreSpared | apps/desktop/src/main/settings.ts:416-480 | the writer of one section spares the others |
| Settings.LastWriteReadsBack | apps/desktop/src/main/settings.ts:416-480 | a section not touched by later patches reads back as last written, sanitised once |
| Settings.ValidWriteReadsBack | apps/desktop/src/main/settings.ts:416-480 | a valid value reads back as exactly itself, through any later patches of other sections |
| SettingsQueue.Queue.PatchSettingsConfig | apps/desktop/src/main/settings.ts:387-395 | a call joins the end of the chain |
| SettingsQueue.Queue.StartNext | apps/desktop/src/main/settings.ts:393 | the next patch starts whichever way the one before it ended, and less work is left |
| SettingsQueue.Queue.PatchDone | apps/desktop/src/main/settings.ts:390 | a patcher that throws ends its turn with the file untouched |
| SettingsQueue.Queue.WriteDone | apps/desktop/src/main/settings.ts:377-381 | the write ends the patch and keeps the file the fold of the ended patches |
| SettingsQueue.SettledQueueIsLinear | apps/desktop/src/main/settings.ts:375-395 | in every interleaving patches end in call order, and the file is the fold of the successful ones, begun anew after a torn write |

## Left out

- PlanRuns.OrdersStayDense: an addition is one step there, as the transaction makes it; what happens without that isolation is `PlanRuns.AppendStaysDense`.
- WordRoundTrip.WordRoundTrip: the year is what `normalizeYear` makes of the year or the tags, and a blank title comes back as the import's replacement.
- Reconnect.Replicas.PushThenPull: writing sync.json always succeeds; a failure there is covered for the states in `SyncStates` and not for the rows.
- SyncRuns.KeepReconnecting: nobody else writes to either database in the meantime; local edits between a pull and the next one without a push are overwritten by design.
- Settings.LastWriteReadsBack: the files of the older format, which are read when a section is absent, are not modelled.
- Numbers are unbounded: verse numbers and orders beyond 2^53 are not rounded as JavaScript would.
- Unpaired surrogates, full Unicode case mapping and decomposition: the second is a parameter, the first does not occur.
- The warning that a reconnect broadcasts: `overwritten` is counted exactly, the message is not modelled.
- The calendar: `addUtcDays` is addition on day numbers.
- Database errors other than a unique index or a foreign key: they are rethrown without effect.
- A refresh that fails in the client: the list then stays as it was until the next refresh. Other clients of the same database and a change of the selected plan are not in `ClientRuns` either.
- Item updates and the soft deletion of plans: they touch neither orders nor days. The text of an imported file is a list of lines.
- Electron windows, dialogs, IPC registration, WebSocket transport and React rendering: input and output.
- The Prisma, better-sqlite3, mammoth and docx libraries: atomic steps or lists of lines.
- Payload validation, profile activation and the snapshot taken from the running screens: flat, or deliberately unguarded.
- JSON song import, unique file names on export, file and path handling, data export and migration: easier than what is here.
- The Bible client, the media library and the web application: not part of the desktop core.
