# OpenHeaders: verified models of the hand-written state machines, codecs and crash-sensitive procedures

This project models, in Dafny, the parts of OpenHeaders whose correctness rests on hand-written control flow, and
proves what they are for. Each file is one module, or two that belong together; `dafny verify dfyconfig.toml` checks
them all.

**Terminal input** (`text_search`, `input_keys`, `input_decoder`, `input_chunking`, `input_exactness`,
`input_flushing`, `input_roundtrip`, `input_typing`). The decoder holds partial escape sequences over arbitrary chunk
boundaries and swallows bracketed pastes with a kept tail. `Parse` is its meaning as a function of the buffer, and the
`Decoder` class with its loops is proved to compute it. Text is UTF-16, as in the source: `MAX_SEQUENCE` counts code
units. Independence of the chunking is false for some streams, because an over-long prefix is dropped depending on
where a chunk ends; the theorem says for exactly which streams it holds. A paste stays silent under any feeds and
flushes after silence exactly when no flush falls inside the opener itself. Which key each text is, is told from the
side of the keyboard: whatever a terminal sends for a key or the mouse is read back as that key or report.

**Screen** (`screen_text`, `screen_box`, `screen_chrome`, `screen_layout`, `screen_view`, `screen_geometry`,
`screen_renderer`). ANSI-aware measuring and truncation, boxes, header, legend, the layouts, the three screens, the
overlay splice and the diff renderer. A `char` is one code point and one cell. `Shows(t, plain)` says that a styled
text is well-formed and what its cells read; every composer is followed through that relation, so the theorems give
both the geometry of a frame and what it shows. Data is assumed free of raw escapes: names are rendered verbatim and
nothing filters them. The renderer is compared with one that repaints every row. The literal claim that it rewrites
only rows whose cells differ is false of blank rows past the end of a frame; the theorem says for exactly which frames
it holds.

**Native messaging** (`bytes`, `nm_framing`). The length-prefixed decoder with its cap and failure latch, for any
partial parser of the bodies.

**HTTP/3 helper** (`h3_framing`, `h3_hop_output`, `h3_pool`, `h3_hops`, `h3_safety`, `h3_retry`, `h3_verbs`,
`h3_loop`). The frame codec, what one hop writes, the generation-tagged pool shared by hops that interleave at every
await, the retry-once rule in both directions (a stale reuse is retried exactly when it may be), and the frame loop.
Tasks of the loop are numbered, because a task whose id is requested again while it runs loses its handle: it can be
neither aborted nor awaited, and the theorems say for exactly which runs that happens. QUIC, TLS and DNS are arbitrary
outcomes; a mutex section is one step. A stream that ends inside a frame header reads as a clean end, as the code has
it and against its own comment, which speaks of a frame boundary.

**Telemetry outbox** (`outbox`, `outbox_memory`, `outbox_conservation`, `outbox_draining`, `outbox_overlap`,
`outbox_sequential`, `outbox_disk`). What becomes of every envelope, one operation after the other and with sends,
discards and a drain overlapping at every await, and the write chain with its dirty flag against mutations at any
moment. Under overlap the circuit is not learnt quite once and a channel discarded while it is drained still goes out;
the theorems say at exactly which steps. With nothing overlapping the two models agree. Entries carry an identity,
because the source drops them by object identity. The cap is enforced by `put` only, so a file with more entries is
loaded whole.

**Vault, backup, updates** (`vault_rotation`, `backup`, `calver`, `auto_update`). Key rotation over a disk that may
stop being written at any point, with an ideal cipher; backup and restore over maps from paths to contents; the
version order; and the unattended updater. Both copies of the order, in the daemon and in the client, are the same
code. Within one process the updater never stages a version twice or goes back, but what it puts on disk can go back
after a failed probe, which throws after the swap and is forgotten, and so can a later process when such a binary
turns out to be older than it was offered as; the theorems say after exactly which probes and relaunches.

**Terminal application** (`tui_focus`, `tui_app`, `tui_keys`, `tui_objects`, `tui_run`, `tui_answers`). The focus
ring, every key and click of the application, and the session that interleaves input, refreshes, writes and loads.
`TuiApp` and `TuiRun` say what each step means, `TuiKeys` and `TuiAnswers` which key, click or answer has which
effect; the classes in `tui_objects` carry the fields of the source's objects and are proved step by step against
them. A write carries what was picked when it started, so that it can be compared with the row the app marks. The
refresh mark shown to the user can go out early, when loading a rule fails during a refresh; the theorem says that
over whole runs nothing else separates it from the fetch.

**Pseudo-locale** (`pseudo_locale`). Splitting on placeholders, accenting, padding, and interpolation.

Functions without a contract of their own are the specifications that the methods and lemmas below are about.

## Model

| member | source | states |
|---|---|---|
| `InputTyping.CharacterExactly` | apps/cli/src/tui/input.ts:59-69 | A character gives a key event exactly for the key it is sent for: CR and LF for Enter, 0x09 for Tab, blank for Space, 0x7F and 0x08 for Backspace, a letter's code minus 0x60 for Ctrl with it, every other printed character itself |
| `InputTyping.PressIsRead` | apps/cli/src/tui/input.ts:155-240 | Whatever is pressed, in every form a terminal sends it (control codes, CSI, SS3 and `~` forms with 1, 4, 7 and 8 for Home and End, Alt as a leading Esc, a doubled Esc, mouse reports), the head of the buffer is read as just that event |
| `InputTyping.SessionIsRead` | apps/cli/src/tui/input.ts:155-240 | A whole stream of presses and mouse reports is read as exactly those events in order, with nothing left over |
| `InputTyping.NothingIsRead` | apps/cli/src/tui/input.ts:65-69 | The dropped control codes leave no event, with Alt or without, and an Esc alone waits |
| `InputTyping.OtherNumbersAreForgotten` | apps/cli/src/tui/input.ts:131-139 | A `~` sequence whose first number is no key's gives nothing, but for 200, which opens a paste |
| `InputTyping.UnknownIsForgotten` | apps/cli/src/tui/input.ts:140-148 | A sequence with any other final byte gives nothing |
| `InputTyping.SilenceMeansEscape` | apps/cli/src/tui/input.ts:184-221 | After silence the Esc of a sequence that still waits was the Esc key, and what followed it is read as text |
| `InputRoundTrip.MouseDecodes` | apps/cli/src/tui/input.ts:96-124 | An SGR report decodes to exactly the mouse event it encodes: action, button, cell and modifiers |
| `InputKeys.DecodeCsi` | apps/cli/src/tui/input.ts:131-148 | A CSI sequence never yields a printed character, and only a `~` final can open a paste, without an event |
| `TextSearch.FindPattern` | apps/cli/src/tui/input.ts:159-160 | The index loop finds the first occurrence of the terminator |
| `TextSearch.KeepTail` | apps/cli/src/tui/input.ts:161-170 | The downward loop keeps the longest tail that is a proper prefix of the terminator |
| `TextSearch.Tail` | apps/cli/src/tui/input.ts:161-170 | The kept tail is a suffix of the text and a proper prefix of the pattern |
| `TextSearch.TailSuffices` | apps/cli/src/tui/input.ts:159-170 | For a text without the pattern the kept tail stands for all of it: whatever follows, the next occurrence is found at the same place, so a split terminator is never missed |
| `TextSearch.TailComposes` | apps/cli/src/tui/input.ts:161-170 | Keeping a tail of a kept tail loses nothing of what one look at the whole text would keep |
| `InputDecoder.TakeHead` | apps/cli/src/tui/input.ts:157-238 | One turn of the loop, branch by branch, takes exactly what the head of the buffer amounts to |
| `InputDecoder.IndexOfFinal` | apps/cli/src/tui/input.ts:192-199 | The scan stops at the first final byte of a CSI sequence |
| `InputDecoder.Decoder.constructor` | apps/cli/src/tui/input.ts:150-153 | A decoder starts with nothing buffered and outside a paste |
| `InputDecoder.Decoder.ParseBuffer` | apps/cli/src/tui/input.ts:155-240 | The parse loop terminates on a shrinking buffer and leaves exactly the events, rest and paste flag of the specified parse |
| `InputDecoder.Decoder.Feed` | apps/cli/src/tui/input.ts:243-246 | A feed parses what was buffered followed by the new text |
| `InputDecoder.Decoder.FlushPending` | apps/cli/src/tui/input.ts:247-252 | After a flush nothing is pending |
| `InputDecoder.FlushSettles` | apps/cli/src/tui/input.ts:184-221 | A flushed parse keeps text only inside a paste |
| `InputChunking.StepAppend` | apps/cli/src/tui/input.ts:176-237 | A complete head is decoded alike when more text follows, as long as no character is torn |
| `InputChunking.ParsePaste` | apps/cli/src/tui/input.ts:158-175 | Inside a paste everything up to the terminator disappears and decoding resumes right after it; without a terminator only the tail is kept |
| `InputChunking.ParseSettles` | apps/cli/src/tui/input.ts:155-240 | What a parse leaves is a suffix of its input and parsing it again changes nothing |
| `InputChunking.DropIsHarmless` | apps/cli/src/tui/input.ts:200-204 | When an over-long prefix is given up inside a tame stream, what follows leaves no trace either way |
| `InputChunking.FeedsTame` | apps/cli/src/tui/input.ts:243-246 | From any settled state, feeding the chunks of a tame stream one by one gives what one feed of all of it gives |
| `InputExactness.TellingCut` | apps/cli/src/tui/input.ts:200-204 | Every stream that is not tame has a place to cut it where two feeds differ from one |
| `InputExactness.ChunkIndependenceExactly` | apps/cli/src/tui/input.ts:150-254 | Events and final state are the same for every chunking if and only if every CSI sequence has its final byte within 65 units and one that never ends is short or followed by dropped controls only |
| `InputExactness.OverlongArrowDependsOnChunks` | apps/cli/src/tui/input.ts:200-204 | A 66-unit arrow sequence is an arrow when it comes whole and not when its last unit comes alone |
| `InputExactness.PasteParsesAway` | apps/cli/src/tui/input.ts:158-175 | A whole paste is invisible: parsing continues with what follows it |
| `InputExactness.PasteNeverReplays` | apps/cli/src/tui/input.ts:158-175 | For every body without the terminator and every chunking of opener, body and terminator no event comes from the paste and decoding resumes exactly after it |
| `InputExactness.OpenPasteIsMute` | apps/cli/src/tui/input.ts:158-175 | Until the terminator has come a paste in any chunks yields nothing, keeps only the tail and stays open |
| `InputFlushing.FlushesNeverReplay` | apps/cli/src/tui/input.ts:155-252 | With feeds and flushes after silence in any order, a run goes as if the paste had never been sent, as long as no flush falls inside the six units of the opener |
| `InputFlushing.PasteWalk` | apps/cli/src/tui/input.ts:155-252 | From every point inside a paste, the opener included, nothing is reported until the terminator has been read, and reading resumes fresh right after it |
| `InputFlushing.FlushInOpenerShows` | apps/cli/src/tui/input.ts:184-221 | Whenever a flush falls inside the opener, however it was cut before, whatever is sent later and whether or not the paste ends, something is reported |
| `InputFlushing.MuteExactly` | apps/cli/src/tui/input.ts:155-252 | For every run that sends a paste or part of one, in any feeds and with flushes after silence anywhere: nothing is reported if and only if no flush falls inside the six units of the opener |
| `InputRoundTrip.SentIsRead` | apps/cli/src/tui/input.ts:91-148 | Every cursor, editing and mouse event with any modifiers, as an xterm sends it (keys without modifiers bare, Shift-Tab as one sequence), is read back as that very event |
| `InputRoundTrip.OtherFormsAreRead` | apps/cli/src/tui/input.ts:91-148 | So are keys with their modifiers spelled out even where there are none, and cursor keys in the form of the application mode |
| `ScreenText.IsSgrStart` | apps/cli/src/tui/screen.ts:56-66 | The index just past the SGR sequence at a position, or -1 when there is none |
| `ScreenText.VisibleWidth` | apps/cli/src/tui/screen.ts:69-82 | SGR sequences take no cell and every other character one |
| `ScreenText.StripSgr` | apps/cli/src/tui/screen.ts:85-99 | Removes exactly the SGR sequences |
| `ScreenText.SliceCells` | apps/cli/src/tui/screen.ts:102-113 | The cells of a plain text between two columns, clipped to what there is |
| `ScreenText.TruncateToWidth` | apps/cli/src/tui/screen.ts:121-145 | The clipping loop, with its two recorded cuts, computes the specified truncation |
| `ScreenText.WidthAppend` | apps/cli/src/tui/screen.ts:69-99 | Measuring and stripping are additive after well-formed SGR text, which concatenation preserves |
| `ScreenText.CutIsClean` | apps/cli/src/tui/screen.ts:121-140 | Cutting a well-formed text at a cell leaves a well-formed text of exactly the cells left of the cut |
| `ScreenText.TruncationIsExact` | apps/cli/src/tui/screen.ts:115-145 | Never wider than asked, exactly as wide when it cuts, untouched when it fits; what remains is the leading cells and the ellipsis, or the leading cells alone when the ellipsis leaves no room; a styled text that is cut ends with a reset |
| `ScreenBox.StyleIsInvisible` | apps/cli/src/tui/style.ts:43-57 | Color, bold and reverse change no cell on any tier |
| `ScreenBox.PadShows` | apps/cli/src/tui/box.ts:13-17 | Padding gives exactly the width, the clipped cells first |
| `ScreenBox.CenterShows` | apps/cli/src/tui/box.ts:77-82 | A centered line is exactly as wide as asked and its margins differ by at most one cell |
| `ScreenBox.SpreadShows` | apps/cli/src/tui/view.ts:51-57 | A spread row is exactly as wide as asked and keeps both ends when they fit with a blank between |
| `ScreenBox.MakeBox` | apps/cli/src/tui/box.ts:36-75 | Exactly `height` rows: top border, the body lines that fit, bottom border |
| `ScreenBox.TopShows` | apps/cli/src/tui/box.ts:43-54 | The top border is exact and shows the clipped title, bracketed where color cannot mark the focus |
| `ScreenBox.BottomShows` | apps/cli/src/tui/box.ts:63-73 | The bottom border is exact and shows the clipped label in the middle of its fill |
| `ScreenBox.BoxIsExact` | apps/cli/src/tui/box.ts:31-75 | Every row of a box has exactly the width of the box (two at least), and each body row shows its clipped line between the borders |
| `ScreenChrome.HeaderShows` | apps/cli/src/tui/chrome.ts:20-29 | The header is exactly as wide as the terminal, down to widths below 4, and shows the joined segments clipped |
| `ScreenChrome.BottomBorderShows` | apps/cli/src/tui/chrome.ts:31-34 | The bottom border is as wide as the terminal, two cells at least |
| `ScreenChrome.FooterLegend` | apps/cli/src/tui/chrome.ts:47-57 | The loop with its early break shows the entries up to the first that no longer fits |
| `ScreenChrome.FooterShows` | apps/cli/src/tui/chrome.ts:43-57 | The footer is exact, never clips an entry it shows, and the next entry would not have fitted |
| `ScreenChrome.TabRowShows` | apps/cli/src/tui/chrome.ts:64-72 | The tab row is exact and shows the titles in order, three blanks apart, the focused one bracketed where there are no colors |
| `ScreenLayout.PanesKeepApart` | apps/cli/src/tui/layout.ts:58-130 | Panes stay inside the rows that are theirs, never overlap, and are large enough for a box |
| `ScreenLayout.PanesTileTheInterior` | apps/cli/src/tui/layout.ts:85-130 | In full mode the panes tile the interior; in single mode the focused one takes all of it below the tab row, unless that is too low for a box |
| `ScreenLayout.ModesExactly` | apps/cli/src/tui/layout.ts:58-105 | Chrome alone, one pane or all three exactly by the rows and columns there are; the status line and the tab row exactly where they belong |
| `ScreenLayout.ColumnsAreSized` | apps/cli/src/tui/layout.ts:107-130 | In full mode the left column has two fifths of the interior, between 26 and 34 cells, with the workspaces, as high as their rows up to half of it, above the environments and the rules to the right |
| `ScreenLayout.OverlayIsInside` | apps/cli/src/tui/layout.ts:142-155 | An overlay lies inside the interior and is centered to within a cell, as large as it asks wherever that fits |
| `ScreenView.ComposeBoard` | apps/cli/src/tui/view.ts:327-379 | The dashboard has one row per terminal row, each the specified one |
| `ScreenView.JoinPanes` | apps/cli/src/tui/view.ts:363-371 | The parts loop joins the box rows that cross a row, in pane order |
| `ScreenView.ComposeDetail` | apps/cli/src/tui/view.ts:381-449 | The drill-in has one row per terminal row, each the specified one |
| `ScreenView.ComposePark` | apps/cli/src/tui/view.ts:451-501 | The park screen has one row per terminal row, each the specified one |
| `ScreenView.ViewTui` | apps/cli/src/tui/view.ts:667-676 | From 3 rows and 8 columns on, one row per terminal row with the overlay spliced in; below that a single padded row |
| `ScreenGeometry.PadIsExact` | apps/cli/src/tui/view.ts:668-670 | The single row of a tiny terminal has exactly its columns |
| `ScreenGeometry.SpliceIsExact` | apps/cli/src/tui/view.ts:611-623 | Splicing covers exactly the columns of the box; every other cell keeps what it shows |
| `ScreenGeometry.FramesAreExact` | apps/cli/src/tui/view.ts:667-676 | For data free of raw escapes every row of every frame has exactly the columns of the terminal, overlays included |
| `ScreenGeometry.OverlaysCoverOnlyTheirBox` | apps/cli/src/tui/view.ts:605-665 | An overlay changes no cell outside its rectangle and inside it shows its own box |
| `ScreenGeometry.OverlaysShowTheirLines` | apps/cli/src/tui/view.ts:626-664 | That box has the overlay's title, its lines from the first on and its closing label, with room for twelve lines of help, or for the query and the matches |
| `ScreenGeometry.PanesAreInPlace` | apps/cli/src/tui/view.ts:363-374 | Every pane is drawn whole at the rectangle the layout gave it, with its own body, title and focus |
| `ScreenGeometry.ChromeIsInPlace` | apps/cli/src/tui/view.ts:344-378 | Header first, legend last, border between it and the interior |
| `ScreenGeometry.BarsAreInPlace` | apps/cli/src/tui/view.ts:345-374 | The status line and the tab row are shown on their own rows, with one tab a pane in pane order |
| `ScreenGeometry.DetailIsInPlace` | apps/cli/src/tui/view.ts:425-445 | A drill-in shows its body line by line from the scroll position on |
| `ScreenGeometry.ParkIsCentered` | apps/cli/src/tui/view.ts:475-489 | The park block is centered to within one row and one cell |
| `ScreenRenderer.Renderer.constructor` | apps/cli/src/tui/screen.ts:20-23 | A new renderer owes a full repaint |
| `ScreenRenderer.Renderer.Render` | apps/cli/src/tui/screen.ts:25-40 | One render writes exactly the rows that are due, in order, and remembers the clipped frame |
| `ScreenRenderer.Renderer.Resize` | apps/cli/src/tui/screen.ts:42-45 | A new geometry makes the next render repaint |
| `ScreenRenderer.RenderRepaints` | apps/cli/src/tui/screen.ts:25-40 | One render leaves the terminal as the clipped frame followed by blank rows |
| `ScreenRenderer.DiffRefinesRepaint` | apps/cli/src/tui/screen.ts:20-54 | Over any run of renders and resizes, whatever a resize leaves on the terminal, the screen is that of a renderer that repaints every row every time |
| `ScreenRenderer.WritesAreDue` | apps/cli/src/tui/screen.ts:28-36 | Rows are written top down, each at most once, and only when their buffer entry changed |
| `ScreenRenderer.DueRowsAreWritten` | apps/cli/src/tui/screen.ts:28-36 | Every row whose buffer entry changed is written |
| `ScreenRenderer.WritesDifferExactly` | apps/cli/src/tui/screen.ts:25-40 | Without a pending repaint the rows written are exactly those that differ from the screen if and only if no row that only one of the two frames has is blank there |
| `ScreenRenderer.RowIsWritten` | apps/cli/src/tui/screen.ts:28-36 | One row is written if and only if it differs, or only one of the two frames has it and it is blank there |
| `ScreenRenderer.BlankRowsAreRewritten` | apps/cli/src/tui/screen.ts:33-36 | The condition can fail: a frame that loses a blank last row clears it again |
| `NmFraming.Decoder.Push` | apps/nm-host/src/framing.ts:46-68 | One chunk tells exactly what reading the buffer and the chunk comes to; after a failure nothing |
| `NmFraming.DecodeAppend` | apps/nm-host/src/framing.ts:46-68 | Reading two pieces one after the other is reading them at once, up to the first failure |
| `NmFraming.ChunksDoNotMatter` | apps/nm-host/src/framing.ts:38-70 | For every byte stream and every chunking the messages, the first protocol error and the latch are the same |
| `NmFraming.FailureIsLast` | apps/nm-host/src/framing.ts:41-44 | At most one protocol error is told, it is the last report, and it is told exactly when the latch is set |
| `NmFraming.EncodedMessagesDecode` | apps/nm-host/src/framing.ts:19-25 | Any list of encoded messages within the cap decodes to exactly that list and then to what follows |
| `NmFraming.RoundTripInChunks` | apps/nm-host/src/framing.ts:19-70 | The same in any chunks, with an empty buffer and no failure at the end |
| `NmFraming.OversizeFails` | apps/nm-host/src/framing.ts:50-54 | A message past the cap fails at its prefix, whatever follows |
| `NmFraming.WireIsExact` | apps/nm-host/src/framing.ts:19-25 | On the wire a message is four bytes of length, the first one weighing least, and its body |
| `Bytes.ReadBack` | native/h3-helper/src/framing.rs:24-41 | A 32-bit field in either byte order reads back as the number written |
| `Bytes.LittleEndianExactly` | apps/nm-host/src/framing.ts:19-25 | Four bytes are the field of exactly the number they make with the first one weighing least |
| `Bytes.BigEndianExactly` | native/h3-helper/src/framing.rs:24-41 | And of exactly the number they make with the first one weighing most |
| `H3Framing.Reader.ReadExact` | native/h3-helper/src/framing.rs:17-21 | Fills a buffer or fails having consumed what there was |
| `H3Framing.Reader.Next` | native/h3-helper/src/framing.rs:14-35 | Reads one frame: got, clean end, over the ceiling, or truncated |
| `H3Framing.ReadEncoded` | native/h3-helper/src/framing.rs:37-44 | An encoded frame is read back with exactly the rest left over |
| `H3Framing.WireIsExact` | native/h3-helper/src/framing.rs:37-44 | On the wire a frame is its type, its id and its length, both with the first byte weighing most, and its payload |
| `H3Framing.CutStreamYieldsWholeFrames` | native/h3-helper/src/framing.rs:16-35 | A stream cut anywhere yields exactly the frames complete before the cut; a cut inside a header passes for a clean end, inside a payload it does not |
| `H3Framing.WholeBeforeIsMaximal` | native/h3-helper/src/framing.rs:16-35 | That number of frames is the largest that fits before the cut |
| `H3Framing.EncodedFramesReadBack` | native/h3-helper/src/framing.rs:16-44 | Encoded frames read back to themselves and a clean end |
| `H3Framing.OverlongPayloadStops` | native/h3-helper/src/framing.rs:26-31 | A payload past the ceiling stops the stream at its header |
| `H3HopOutput.SendSlices` | native/h3-helper/src/request.rs:335-337 | Slices of at most 64 KiB go out in order, as far as the writer takes them |
| `H3HopOutput.SendChunks` | native/h3-helper/src/request.rs:333-338 | A whole body goes out chunk by chunk, or a prefix of it when the writer is gone |
| `H3HopOutput.StreamResponse` | native/h3-helper/src/request.rs:308-350 | Head, data, trailers and end go out in this order, or the error is left to report |
| `H3HopOutput.Run` | native/h3-helper/src/request.rs:33-39 | A hop writes its specified output or a prefix of it when the writer is gone |
| `H3HopOutput.SlicesJoin` | native/h3-helper/src/request.rs:335 | Slices are non-empty, at most 64 KiB, and join to the chunk |
| `H3HopOutput.OutputIsWellFormed` | native/h3-helper/src/request.rs:306-350 | HEAD BODY* [TRAILERS] END exactly when the response completes, otherwise a proper prefix of that and one ERROR; the data frames carry the body received |
| `H3HopOutput.PayloadsAreExact` | native/h3-helper/src/request.rs:306-350 | The head, the trailers and the error carry exactly what the hop received, each exactly if it received it, and the end is empty |
| `H3HopOutput.OutputReadsBack` | native/h3-helper/src/request.rs:33-39 | Through the codec the output reads back unchanged, and cut anywhere it yields the frames complete before the cut |
| `H3Pool.DiscardIsExact` | native/h3-helper/src/pool.rs:107-114 | However long a checkout is kept and whatever happens to the pool meanwhile, discarding it removes that very connection if it is still pooled and nothing else, a replacement under its key included |
| `H3Pool.Pool.Sweep` | native/h3-helper/src/pool.rs:116-124 | Drops exactly the entries whose driver wound down |
| `H3Pool.StoreIsFresh` | native/h3-helper/src/pool.rs:126-137 | After any operations an offer displaces no entry; it is refused exactly when its tuple is taken and otherwise gets a generation above every one pooled |
| `H3Hops.InvStep` | native/h3-helper/src/request.rs:62-146 | Every step of every hop, every sweep and every new hop keeps pool, ownership and replay sound |
| `H3Safety.PoolIsTrustExact` | native/h3-helper/src/pool.rs:21-47 | Under every interleaving each entry sits under the tuple it was dialled with, generations are distinct and below the counter, instrumented dials never enter, and no hop works over another tuple's connection |
| `H3Safety.EvictionIsTargeted` | native/h3-helper/src/pool.rs:107-137 | A hop displaces no entry, except that an eviction removes the very connection it checked out or stored |
| `H3Safety.QuietPoolOwnsAll` | native/h3-helper/src/pool.rs:49-65 | With no hop live the open connections are exactly the pool's |
| `H3Safety.ReplayIsDisciplined` | native/h3-helper/src/request.rs:82-146 | At most one fresh dial and two exchanges, and the head of a request that is not idempotent crosses at most once |
| `H3Safety.AnsweredHopsNeverRepeat` | native/h3-helper/src/request.rs:279-304 | After a response head no further dial, exchange or crossing happens |
| `H3Retry.CountsAreExact` | native/h3-helper/src/request.rs:82-146 | Dials, exchanges and crossings of a hop go up with the very moves they count, by one |
| `H3Retry.BeginsExactly` | native/h3-helper/src/request.rs:82-90 | A request that cannot be built ends the hop; a hop without `captureNetwork` whose tuple is pooled works on that very entry without dialling; every other hop dials |
| `H3Retry.FailsExactly` | native/h3-helper/src/request.rs:89-96 | An exchange that fails is stale exactly on a reused connection, and the hop's own failure on one it dialled |
| `H3Retry.RetriesExactly` | native/h3-helper/src/request.rs:95-112 | In every reachable system a stale hop goes on to dial if and only if its head has not crossed or its method is one of the six; either way the stale connection is pooled no more |
| `H3Retry.DialsExactly` | native/h3-helper/src/request.rs:117-118 | What is dialled is for the hop's own tuple, instrumented exactly if its head asks for that; a failed dial ends the hop |
| `H3Retry.OffersExactly` | native/h3-helper/src/request.rs:118-126 | A fresh connection is pooled exactly when it is not instrumented and its tuple is free, and is used by its hop either way |
| `H3Retry.EndsExactly` | native/h3-helper/src/request.rs:126-145 | A hop that fails on the connection it dialled takes it out of the pool again or closes it; one that ends well on a pooled connection leaves it there |
| `H3Retry.SweepsExactly` | native/h3-helper/src/pool.rs:116-124 | A sweep drops and closes exactly the dead entries and touches no hop |
| `H3Retry.NoHopGivesUpEarly` | native/h3-helper/src/request.rs:82-146 | Over every interleaving, a hop with a request that could be built, never cancelled, that ended without an answer has dialled, or its head crossed on a reused connection and its method is none of the six |
| `H3Retry.KeysAreExact` | native/h3-helper/src/pool.rs:33-47 | The pool tuple tells apart exactly the hosts, ports and everything in the head that shapes the connection's trust |
| `H3Retry.TrustIsShared` | native/h3-helper/src/pool.rs:21-47 | Under every interleaving a hop exchanges only on a connection dialled for the same host and port by a head that asks for the same trust, and never on another hop's instrumented one |
| `H3Verbs.IdempotentExactly` | native/h3-helper/src/request.rs:53-60 | Exactly the six idempotent methods pass the gate, in any mixture of letter cases |
| `H3Loop.Helper.Handle` | native/h3-helper/src/main.rs:103-169 | One frame changes the maps and reports exactly as specified |
| `H3Loop.HeldExactly` | native/h3-helper/src/main.rs:103-169 | Over a whole run of any client every task is at all times over or held, to be aborted or awaited, if and only if no frame spawns a task for an id whose task has not finished |
| `H3Loop.UnreachableExactly` | native/h3-helper/src/main.rs:103-169 | After any run the tasks neither over nor held are exactly those whose id spawned another while they ran and that have not finished since |
| `H3Loop.ExitLosesExactly` | native/h3-helper/src/main.rs:94-101 | The idle exit leaves no task unfinished if and only if every task that lost its handle that way has finished |
| `H3Loop.Helper.AwaitRunning` | native/h3-helper/src/main.rs:172-174 | At the end of input every task held is awaited, whatever the order |
| `H3Loop.EndLosesExactly` | native/h3-helper/src/main.rs:172-174 | So the end of input leaves no task unfinished if and only if every task that lost its handle has finished |
| `H3Loop.NoReuseLosesNothing` | native/h3-helper/src/main.rs:94-101 | For clients that never reuse an id neither end leaves a task unfinished |
| `H3Loop.ReuseCanDetach` | native/h3-helper/src/main.rs:108-113 | The condition can fail: of two requests with one id the first is out of reach and the idle exit cuts it off, although no id is ever pending and running at once |
| `H3Loop.IdsAreIndependent` | native/h3-helper/src/main.rs:86-170 | However requests interleave and whenever tasks finish, what an id comes to depends on its own frames alone |
| `H3Loop.CancelExactly` | native/h3-helper/src/main.rs:157-165 | A CANCEL leaves nothing of its id pending or held, aborts the task that was held, and touches no other id and no other task |
| `H3Loop.CancelledStaysQuiet` | native/h3-helper/src/main.rs:86-170 | Once cancelled, an id runs nothing and reports nothing until it is requested again |
| `H3Loop.EachRequestEndsAsPromised` | native/h3-helper/src/main.rs:86-170 | An id requested once, whatever other ids do: handed over at most once, with the concatenation of its payloads and exactly the announced length; otherwise one ERROR and never a run |
| `H3Loop.RequestedOnce` | native/h3-helper/src/main.rs:103-115 | A client that never reuses an id requests each id once |
| `H3Loop.RunStaysSound` | native/h3-helper/src/main.rs:86-175 | For every client: buffered bytes never exceed the announcement, and every handle is of a task of its own id that is not over |
| `H3Loop.DisjointExactly` | native/h3-helper/src/main.rs:86-175 | Over a whole run of any client no id is pending and running at once if and only if no head that announces a body arrives for a running id, and no head without a body for a pending one |
| `H3Loop.NoReuseNoClash` | native/h3-helper/src/main.rs:103-115 | So it is for clients that never reuse an id |
| `H3Loop.ReuseCanClash` | native/h3-helper/src/main.rs:105-115 | The condition can fail: an id reused while running is pending and running at once |
| `OutboxMemory.Circuit.constructor` | apps/cli/src/telemetry-outbox.ts:62 | An invocation starts with a closed circuit |
| `OutboxMemory.TelemetryOutbox.Filter` | apps/cli/src/telemetry-outbox.ts:191 | The entries of one channel, in order |
| `OutboxMemory.TelemetryOutbox.Put` | apps/cli/src/telemetry-outbox.ts:176-180 | Appends a fresh entry and drops the oldest over the cap |
| `OutboxMemory.TelemetryOutbox.Discard` | apps/cli/src/telemetry-outbox.ts:181-185 | Forgets a channel, and asks for a write exactly when that changed something |
| `OutboxMemory.TelemetryOutbox.DrainOne` | apps/cli/src/telemetry-outbox.ts:188-203 | One channel's loop with its early stop |
| `OutboxMemory.TelemetryOutbox.Drain` | apps/cli/src/telemetry-outbox.ts:186-205 | Both channels in order; persists exactly when something was tried |
| `OutboxMemory.TelemetryOutbox.Send` | apps/cli/src/telemetry-outbox.ts:252-276 | Tries once unless the circuit is open and seals what the wire did not take |
| `OutboxConservation.OpenedIsSound` | apps/cli/src/telemetry-outbox.ts:136-142 | Any list of entries in the file is a sound start, over the cap or not |
| `OutboxConservation.PutKeeps` | apps/cli/src/telemetry-outbox.ts:176-180 | A put leaves at most 8 entries: the newest ones, the new body last |
| `OutboxConservation.SendKeeps` | apps/cli/src/telemetry-outbox.ts:252-276 | After a send each envelope is still sealed or settled once, true to the wire, and the invocation has met at most one unknown delivery |
| `OutboxConservation.DiscardKeeps` | apps/cli/src/telemetry-outbox.ts:181-185 | The same holds after a discard |
| `OutboxConservation.DrainKeeps` | apps/cli/src/telemetry-outbox.ts:186-205 | The same holds after a drain |
| `OutboxConservation.EnvelopesAreConserved` | apps/cli/src/telemetry-outbox.ts:168-276 | Whatever the file held, after every run of sends, drains, discards and invocations each body is sealed or settled once for one reason, true to what the wire said; nothing answered is tried again, no entry fails more than five drains, and an invocation sees at most one unknown delivery |
| `OutboxConservation.DiscardIsPrecise` | apps/cli/src/telemetry-outbox.ts:181-185 | A discard empties its channel and leaves the other alone |
| `OutboxConservation.DrainsOldestFirst` | apps/cli/src/telemetry-outbox.ts:80-84 | The attempts of a drain are a prefix of the channel's entries, oldest first, ending with the first unknown delivery, and only that opens the circuit |
| `OutboxConservation.DrainLeavesTheRest` | apps/cli/src/telemetry-outbox.ts:191-202 | A drain leaves exactly the failed entry with one more failure, unless it was the fifth, and those behind it; the other channel is untouched |
| `OutboxDraining.DrainsExactly` | apps/cli/src/telemetry-outbox.ts:186-205 | On a closed circuit a drain tries the usage entries oldest first, up to and including the first unknown one, and only if none was unknown the error reports likewise, each channel only if it has a wire; what was answered is gone and settled as answered, the unknown one is counted up or dropped at its fifth failure and opens the circuit, and every other entry stays, in order |
| `OutboxDraining.AnsweredDrainsEmpty` | apps/cli/src/telemetry-outbox.ts:188-203 | When the wires answer everything, no entry of a channel with a wire is left and each is settled as answered; the others stay and the circuit stays closed |
| `OutboxDraining.OpenDrainsNothing` | apps/cli/src/telemetry-outbox.ts:190 | On an open circuit a drain does nothing |
| `OutboxDraining.SendExactly` | apps/cli/src/telemetry-outbox.ts:252-276 | A send on a closed circuit tries the wire once; an answer settles the envelope and changes nothing else, an unknown outcome opens the circuit; what was not taken is sealed last, and only the oldest over the cap of eight go, settled as overflowed |
| `OutboxDraining.DiscardExactly` | apps/cli/src/telemetry-outbox.ts:181-185 | A discard settles exactly the entries of its channel as discarded and keeps the others in order |
| `OutboxOverlap.OverlapLosesNothing` | apps/cli/src/telemetry-outbox.ts:168-276 | However sends, discards and a drain overlap at their awaits: every envelope is sealed, on the wire with its send or settled, in one of them alone and once, and one the wire has answered for is never tried again |
| `OutboxSequential.DrainAlone` | apps/cli/src/telemetry-outbox.ts:186-205 | A drain of the interleaved model that nothing overlaps leaves what the sequential drain leaves, with the same circuit |
| `OutboxSequential.SendAlone` | apps/cli/src/telemetry-outbox.ts:252-276 | So does a send whose wire answers before anything else happens |
| `OutboxSequential.DiscardAgrees` | apps/cli/src/telemetry-outbox.ts:181-185 | And a discard, in one step |
| `OutboxOverlap.OpenCircuitBounds` | apps/cli/src/telemetry-outbox.ts:252-276 | Once the circuit is open, no more deliveries come back unknown than were on the wire just then |
| `OutboxOverlap.OpenBeginsExactly` | apps/cli/src/telemetry-outbox.ts:186-205 | A delivery begins on an open circuit if and only if the drain is answered and has more entries of its channel selected |
| `OutboxOverlap.OpenCircuitDelivers` | apps/cli/src/telemetry-outbox.ts:186-276 | It can happen: a send fails while a channel with two entries is drained, and the second entry still goes out |
| `OutboxOverlap.UnsealedBeginsExactly` | apps/cli/src/telemetry-outbox.ts:191-202 | The drain begins the delivery of an entry no longer sealed if and only if it is answered and the next one it selected has been discarded or has overflowed since |
| `OutboxOverlap.DiscardedGoesOut` | apps/cli/src/telemetry-outbox.ts:181-202 | It can happen: a channel discarded while it is drained is delivered to its end |
| `OutboxDisk.StepKeeps` | apps/cli/src/telemetry-outbox.ts:143-166 | Every step keeps the file absent or one whole version the memory has had, whatever fails |
| `OutboxDisk.FileConverges` | apps/cli/src/telemetry-outbox.ts:143-166 | However changes interleave with the write chain, once it is quiet the file reads back as the memory, unless a drain has still to persist or the last write failed |
| `OutboxDisk.ChainSettles` | apps/cli/src/telemetry-outbox.ts:157-166 | Left alone the chain always comes to rest |
| `OutboxDisk.FailedWriteIsNotRetried` | apps/cli/src/telemetry-outbox.ts:160-165 | A failed write is not repeated by itself: the chain can rest on a file that misses an entry |
| `OutboxDisk.NextWriteRecovers` | apps/cli/src/telemetry-outbox.ts:157-166 | The next persist makes up for a failed write |
| `VaultRotation.ReencryptSlots` | apps/daemon/src/vault-cipher.ts:246-251 | The slot loop opens every text slot with the old key and seals it with the new one, or fails at the first that does not open |
| `VaultRotation.DataDir.WriteStorageAtomic` | apps/daemon/src/vault-cipher.ts:126-131 | An atomic replacement goes through a torn and a whole temporary file |
| `VaultRotation.DataDir.WriteKeyAtomic` | apps/daemon/src/vault-cipher.ts:126-131 | The key file is replaced in the same three steps |
| `VaultRotation.DataDir.Rotate` | apps/daemon/src/vault-cipher.ts:224-262 | A refused rotation touches nothing; otherwise the disk goes through exactly the specified states and the number of secrets is returned |
| `VaultRotation.MintVerifies` | apps/daemon/src/vault-cipher.ts:133-146 | A minted key file verifies under its passphrase |
| `VaultRotation.OnePassphrase` | apps/daemon/src/vault-cipher.ts:148-166 | Only one passphrase verifies a key file |
| `VaultRotation.ReencryptionKeeps` | apps/daemon/src/vault-cipher.ts:243-253 | Re-encryption keeps every plaintext and every other field; under the old key the result opens whole as before or not at all |
| `VaultRotation.CrashesAreRecoverable` | apps/daemon/src/vault-cipher.ts:213-262 | Wherever an attempt stops, the key on disk opens every secret in storage.json or in the pre-rotation copy |
| `VaultRotation.RunsStayRecoverable` | apps/daemon/src/vault-cipher.ts:213-262 | The same over any run of attempts, finished, refused or cut short anywhere |
| `VaultRotation.RerunIsRefused` | apps/daemon/src/vault-cipher.ts:216-223 | After a crash between the two replacements, with a secret at stake and the new key different from the old, every further attempt is refused and the copy stays |
| `VaultRotation.RotationMeansTheSame` | apps/daemon/src/vault-cipher.ts:224-262 | Rotation goes ahead exactly when the passphrase verifies and the storage is absent or opens whole; then the new passphrase opens the same secrets, other fields are unchanged and the copy is gone |
| `VaultRotation.RefusedExactly` | apps/daemon/src/vault-cipher.ts:148-247 | Each refusal in exactly one case: no key, no key file, another passphrase, a corrupt check, an unreadable storage, a slot sealed with another key |
| `VaultRotation.IvsAreFresh` | apps/daemon/src/vault-cipher.ts:246-251 | As long as the source of IVs never repeats, the key check and every slot have an IV of their own |
| `VaultRotation.NeverRekeyed` | apps/daemon/src/vault-cipher.ts:168-186 | After the first unlock the key file is only ever verified, and by one passphrase alone |
| `Backup.WriteSnapshot` | apps/daemon/src/cli/backup-manifest.ts:97-145 | Refuses when there is nothing to back up or the destination is not empty; otherwise the destination holds exactly the state and a manifest that describes it |
| `Backup.CopyState` | apps/daemon/src/cli/backup-manifest.ts:115-129 | The copy loops produce exactly the state files |
| `Backup.Describe` | apps/daemon/src/cli/backup-manifest.ts:131-136 | One matching manifest entry per file |
| `Backup.VerifySnapshot` | apps/daemon/src/cli/backup-manifest.ts:193-210 | The gate reports the first fault in the order it checks |
| `Backup.RestoreSnapshot` | apps/daemon/src/cli/backup-manifest.ts:225-243 | Drops the old state and the sidecars, then copies what the manifest lists |
| `Backup.VerifyAcceptsExactly` | apps/daemon/src/cli/backup-manifest.ts:188-210 | Accepts exactly the whole, unaltered snapshots of this format with paths that stay inside |
| `Backup.VerifyAcceptsWritten` | apps/daemon/src/cli/backup-manifest.ts:97-210 | Accepts what was written |
| `Backup.AcceptedIsUnaltered` | apps/daemon/src/cli/backup-manifest.ts:188-210 | What is accepted under a manifest still has the contents that were written |
| `Backup.RestoreIsARewind` | apps/daemon/src/cli/backup-manifest.ts:221-243 | Over any data dir the state becomes the state at backup time, nothing stale is left, the sidecars and a plain file in the place of the blobs are gone, and every other file is untouched |
| `CalVer.CompareCalVer` | apps/daemon/src/cli/update-feed.ts:32-52 | The counted loop with early returns computes the specified order |
| `CalVer.SignAntisymmetric` | apps/daemon/src/cli/update-feed.ts:25-52 | Swapping the versions flips the sign |
| `CalVer.ZeroIsEquality` | apps/daemon/src/cli/update-feed.ts:25-52 | Zero exactly for equal betas and bases equal up to trailing zeros |
| `CalVer.Transitive` | apps/cli/src/update-feed.ts:23-50 | Transitive, and strict if either step is |
| `CalVer.BetaComesBefore` | apps/daemon/src/cli/update-feed.ts:26-27 | A beta lies below its release and above every older base |
| `CalVer.FirstDifferenceDecides` | apps/daemon/src/cli/update-feed.ts:43-47 | The first segment that differs decides, whatever follows it |
| `CalVer.BetasDecide` | apps/daemon/src/cli/update-feed.ts:48-52 | On bases equal up to trailing zeros a release is newer than every beta, and betas go by number |
| `CalVer.NewerExactly` | apps/daemon/src/cli/update-feed.ts:25-52 | That is the whole order: newer if and only if a first differing segment is larger, or the bases are equal and the betas say so |
| `CalVer.LeftmostDecides` | apps/cli/src/update-feed.ts:42-45 | Segments are compared from the left, and missing ones count as zero |
| `AutoUpdate.Updater.constructor` | apps/daemon/src/auto-update.ts:105-155 | Installing arms the first check |
| `AutoUpdate.TimersStaySound` | apps/daemon/src/auto-update.ts:105-165 | Over every run, relaunches into any binary included: no two checks overlap, no timer is armed during one, and checking never stalls before a dispose or a restart |
| `AutoUpdate.CheckExactly` | apps/daemon/src/auto-update.ts:123-152 | A check puts the offered version on disk exactly if it is newer than the effective one, verified and renamed into place; stages it exactly if it also answered; restarts exactly then and with a service unit; and otherwise arms the next check unless disposed |
| `AutoUpdate.FiresExactly` | apps/daemon/src/auto-update.ts:105-165 | A timer that goes off starts a check, and a dispose takes the timer away and lets a running check finish |
| `AutoUpdate.DisposedStaysQuiet` | apps/daemon/src/auto-update.ts:158-164 | After a dispose no check starts and no timer is armed in this process; one under way may finish |
| `AutoUpdate.RestartingStaysQuiet` | apps/daemon/src/auto-update.ts:140-147 | Once a restart is under way no check starts in this process and the disk stays as it is |
| `AutoUpdate.StagedIncreaseExactly` | apps/daemon/src/auto-update.ts:117-152 | Over every run the versions staged strictly increase from the one first running if and only if after every relaunch as an older version than the last one staged the next one staged is newer than that |
| `AutoUpdate.ProcessesNeverGoBack` | apps/daemon/src/auto-update.ts:117-152 | Within one process nothing is staged twice, nor anything older |
| `AutoUpdate.RelaunchCanStageTwice` | apps/daemon/src/auto-update.ts:117-152 | The condition can fail: a binary whose probe failed, relaunched as an older version, stages the same one again |
| `AutoUpdate.DiskGoesForwardExactly` | apps/daemon/src/cli/upgrade.ts:195-207 | Over every run the versions put on disk strictly increase from the one first running if and only if after every swap whose probe failed the next swap offers something newer than it did |
| `AutoUpdate.ProvenRunsGoForward` | apps/daemon/src/cli/upgrade.ts:195-207 | They do as long as every probe succeeds |
| `AutoUpdate.FailedProbeLetsTheDiskGoBack` | apps/daemon/src/cli/upgrade.ts:197-205 | A failed probe throws after the swap and is forgotten: the next check can put an older binary in place |
| `TuiFocus.FocusRing.Move` | apps/cli/src/tui/focus.ts:34-38 | Cycles the panes and is inert under a modal |
| `TuiFocus.FocusRing.FocusPane` | apps/cli/src/tui/focus.ts:59-63 | Takes the focus unless a modal is open or the pane is unknown |
| `TuiFocus.FocusRing.FocusDigit` | apps/cli/src/tui/focus.ts:64-70 | The same by position, counted from 1 |
| `TuiFocus.FocusRing.PushModal` | apps/cli/src/tui/focus.ts:71-73 | A modal goes on top |
| `TuiFocus.FocusRing.PopModal` | apps/cli/src/tui/focus.ts:74-76 | The top modal comes off, if any |
| `TuiFocus.FocusRing.SetPanes` | apps/cli/src/tui/focus.ts:77-81 | The focus survives when its pane does |
| `TuiFocus.PreviousUndoesNext` | apps/cli/src/tui/focus.ts:34-38 | A step back undoes a step on, around the ends included |
| `TuiFocus.NextIsNeighbour` | apps/cli/src/tui/focus.ts:34-38 | A step on goes to the pane right after the focused one, the first after the last, and a step back the other way |
| `TuiApp.HandleIsSafe` | apps/cli/src/tui/app.ts:793-813 | Whatever the event, the modal stack follows the overlay, and a write starts only where none was outstanding, alone, and for the very row, by pane and identity, that is marked; phase and snapshot are untouched |
| `TuiApp.ClosingUndoesOpening` | apps/cli/src/tui/app.ts:465-478 | Closing an overlay leaves what was underneath |
| `TuiApp.EscapeTakesOneLayer` | apps/cli/src/tui/app.ts:601-613 | Escape takes off exactly the innermost layer of an overlay, at most three in all, and nothing below it |
| `TuiApp.RuleWritesAreSafe` | apps/cli/src/tui/app.ts:312-326 | Toggling and publishing start a write exactly when a rule is selected and none is outstanding: the opposite of that flag of that very rule, which is marked |
| `TuiApp.DetailWritesAreSafe` | apps/cli/src/tui/app.ts:328-339 | From a drill-in only the rule shown is written, the flag asked for the other way round, and marked |
| `TuiApp.OpenSelectedIsSafe` | apps/cli/src/tui/app.ts:284-310 | Enter never writes a rule; elsewhere it switches exactly when another row than the active one is selected and none is outstanding, to that very row, which is marked |
| `TuiApp.PaletteItemIsSafe` | apps/cli/src/tui/app.ts:540-574 | An item of the palette starts at most its own write, for the row it names, and whatever has an effect has closed the palette |
| `TuiApp.FilterIsInert` | apps/cli/src/tui/app.ts:424-461 | While the filter is typed no key starts a write, and only Ctrl-C has an effect at all |
| `TuiApp.OutstandingBlocksOnlyWrites` | apps/cli/src/tui/app.ts:284-339 | An outstanding write keeps other writes from starting and has no other influence on any key or click |
| `TuiKeys.EffectsExactly` | apps/cli/src/tui/app.ts:279-813 | In every state an event has exactly the effects it asks for, by one table of keys and clicks: `q` and Ctrl-C quit, `r` refreshes, Space toggles and `p` publishes the selected rule or the one drilled into, Enter or a click on the selected row opens a rule or switches, `y` copies, and an item of the palette does its own; writes only with none outstanding |
| `TuiKeys.EffectsInOrder` | apps/cli/src/tui/app.ts:413-418 | One event has one effect at most, but for `r` in the drill-in of a rule: a refresh and then its rule |
| `TuiKeys.HelpExactly` | apps/cli/src/tui/app.ts:465-600 | The help is open after an event if and only if `?` or its palette item opened it, or it was open and was not left |
| `TuiKeys.PaletteExactly` | apps/cli/src/tui/app.ts:470-645 | Ctrl-K opens the palette from everywhere else with nothing typed, and an open one stays until Ctrl-K, a click outside, Esc with nothing left to take off, or an item that is no picker |
| `TuiKeys.PaletteTyping` | apps/cli/src/tui/app.ts:604-638 | What each key makes of the query and the picker stage |
| `TuiKeys.RuleDetailExactly` | apps/cli/src/tui/app.ts:289-296 | The drill-in of a rule is shown if and only if that rule was opened, or was shown and Esc was not pressed in it |
| `TuiKeys.EnvironmentDetailExactly` | apps/cli/src/tui/app.ts:297-306 | The same of an environment; only the active one drills in, and never the row for none |
| `TuiKeys.FilterExactly` | apps/cli/src/tui/app.ts:424-461 | `/` begins a filter, Enter ends its typing, Esc drops it, and nothing else changes it |
| `TuiKeys.FocusExactly` | apps/cli/src/tui/app.ts:695-703 | Tab goes to the next pane, Shift-Tab to the one before, a digit or a click to that pane, and nothing else moves the focus |
| `TuiObjects.AppObject.HandleEvent` | apps/cli/src/tui/app.ts:793-813 | Overlays take every event, then the drill-in, then a filter being typed; from a sound state the step is safe |
| `TuiObjects.Runner.RunEffects` | apps/cli/src/tui/run.ts:249-265 | Effects run in order and none after a quit |
| `TuiObjects.Runner.Typed` | apps/cli/src/tui/run.ts:267-274 | One decoded event takes the session from one world to the next, keeps its invariant, and never leaves the timer armed beside a fetch |
| `TuiRun.StepKeeps` | apps/cli/src/tui/run.ts:118-285 | Every event, answer and timer keeps the session invariant |
| `TuiRun.SessionStaysSound` | apps/cli/src/tui/run.ts:118-318 | Over every interleaving at most one write is out, for a row picked when it started, and until closed the app marks exactly that row as long as it is out; the modal stack is non-empty exactly when an overlay is open with depth at most one, a parked session never saw a snapshot, and until closed exactly one of fetch and timer is pending unless the last refresh was denied |
| `TuiRun.RefreshMarkExactly` | apps/cli/src/tui/app.ts:856-859 | The refresh mark of the app agrees with the fetch in flight until the load of a rule fails during a fetch, and nothing else separates them |
| `TuiRun.MarkAgreesExactly` | apps/cli/src/tui/run.ts:118-285 | Over every run of an open session the refresh mark and the fetch agree if and only if no load of a rule has failed since the fetch in flight started |
| `TuiAnswers.TypedExactly` | apps/cli/src/tui/run.ts:249-274 | A key or click closes the session exactly if it asks to quit, has a fetch in flight afterwards exactly if one was or it asks for one, and sends exactly the write and the load it asks for |
| `TuiAnswers.FetchEndsExactly` | apps/cli/src/tui/run.ts:143-173 | Every way a fetch ends takes its mark off and tells the phase; only a refusal leaves the poll timer unarmed; a drill-in is closed only if it is of an environment that is gone |
| `TuiAnswers.WriteEndsExactly` | apps/cli/src/tui/run.ts:203-247 | Every way a write ends clears its mark; all but a refusal have a fetch in flight afterwards; an acknowledged rule is loaded again exactly if its drill-in is shown |
| `TuiAnswers.LoadEndsExactly` | apps/cli/src/tui/run.ts:175-186 | A load that fails closes the drill-in of its own rule and no other |
| `TuiRun.FailedLoadClearsTheMark` | apps/cli/src/tui/run.ts:175-186 | It can happen: from the start, `3`, Enter on a rule and a failed load leave a fetch without its mark |
| `TuiRun.ClosedIsFinal` | apps/cli/src/tui/run.ts:276-285 | After a quit nothing is armed or started and the app no longer changes: what was in flight is answered, and that is all |
| `PseudoLocale.AccentText` | packages/i18n/src/pseudo.ts:74-78 | The accent loop maps character by character |
| `PseudoLocale.AccentLeavesTheRest` | packages/i18n/src/pseudo.ts:16-69 | An accented letter is no word character and no brace; everything else stays |
| `PseudoLocale.AccentsStayApart` | packages/i18n/src/pseudo.ts:16-69 | Under every accent is the letter itself, so different letters stay different, in either case |
| `PseudoLocale.LiteralHasNone` | packages/i18n/src/pseudo.ts:81-84 | The literal in front of a placeholder holds none itself, so the part-wise test accents exactly the literals |
| `PseudoLocale.AccentedSteps` | packages/i18n/src/pseudo.ts:80-85 | Accenting the split parts is accenting character by character around the placeholders |
| `PseudoLocale.AccentingCreatesNone` | packages/i18n/src/pseudo.ts:80-89 | Accenting creates no placeholder, inside a segment or across its boundary |
| `PseudoLocale.PlaceholderTakesItsValue` | packages/i18n/src/runtime.ts:14-23 | A named placeholder becomes its value, or stays as it is for an unknown name; the text before it is kept by interpolation and accented by the pseudo-locale |
| `PseudoLocale.PseudoCommutes` | packages/i18n/src/runtime.ts:14-23 | Formatting the pseudo-localized template gives the bracketed, padded text with accented literals and the same values or tokens in the same order, asking for the same names; without arguments it is the template |

## Left out

- The streaming UTF-8 decoder in front of the terminal decoder: chunks are given as text whose boundaries do not tear a surrogate pair.
- Numbers beyond 2^53 in escape parameters, versions and lengths: integers are unbounded here.
- Raw escapes in data shown on the screen, and characters wider or narrower than one cell: one code point is one cell, as the source counts.
- The catalog text, the formatting of rows, titles and times, and the row filter: the views take their lines, titles and legends as arbitrary well-formed text, and the application takes the selected row and palette item as arbitrary rows and items.
- Cursors, scroll positions and mouse hit testing in the application: each event is given what they resolve to. Notices and their expiry are left out.
- Wall-clock durations, backoff delays, jitter and timer precision: a timer is a step that may happen while it is armed.
- The left column's factor 0.4 is taken exactly; the source multiplies in floating point.
- The padding length of the pseudo-locale is an arbitrary number: 0.35 of the length is rounded in floating point there. Function messages are wrapped in the same way and not modelled.
- TLS, QUIC, DNS and the h3 library, JSON text, regular-expression engines, scrypt, AES-GCM and SHA-256: arbitrary outcomes, partial parsers and ideal abstractions. Decryption gives something back only under the very key that sealed the text, and key derivation is injective in passphrase, salt and cost.
- File modes, directory creation, process identifiers in temporary names and errors of single file operations: an operation that fails is a crash before it, except in the outbox, where failures are steps.
- OutboxConservation.EnvelopesAreConserved: operations are composed one after the other, as `OutboxOverlap` does not require; the next invocation reads what this one left in memory, which the disk model justifies when the chain has settled.
- OutboxMemory.TelemetryOutbox.Drain: the wire is a function of the entry, since a drain tries each entry at most once.
- The validation of the update manifest: a check takes the version it offers, or none.
- The order of files in a backup manifest, the creation of directories, and what a walk over blobs yields are given; symbolic links are not part of this model.
- A binary that has answered its probe, or that is the one running, is taken to be what it said when it is started again.
- VaultRotation.ReencryptSlots: a slot named `__proto__`, which an assignment to a plain object loses although it is counted, is kept here: what assigning to that name does to an object is not part of this model.
- The Windows rename dance of the binary swap: a swap either takes or leaves the old binary.
- H3HopOutput.Run: the writer is a channel that takes some number of frames and then is gone; a cancelled task is not part of it.
- H3Loop.EachRequestEndsAsPromised: is about ids requested once; what a reused id comes to is `H3Loop.IdsAreIndependent` alone.
- OutboxOverlap.OverlapLosesNothing: is about one invocation with one drain at a time, as the source starts it; the reasons of settling and the counts of failed drains are those of the sequential model.
- H3Safety.ReplayIsDisciplined: a head is taken to have crossed exactly when the h3 library accepted the request, as the source takes it.
- The client command tables, reporters, rule engine, web and desktop screens: nothing hard to prove.
