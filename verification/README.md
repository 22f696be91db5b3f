# Ethereum wallet UI: a verified model

A Dafny model of the four parts of this repository whose correctness is hardest to see, with proofs.

**The QR encoder** (`src/qml/qrcodegen.js`), a byte-mode encoder for ISO/IEC 18004:2015, from the product
in GF(2^8) up to the finished symbol. The main result is end to end: a decoder that looks at nothing but
the colours of the modules gets the input bytes back (`SymbolEncoding.EncodeBytes`), for every input that
fits some version, with no further precondition: the room for the codewords is itself counted from the
geometry (`SymbolCapacity.RoomForCodewords`). The decoder does not share the encoder's order of modules, its
masks or its count width: it finds each bit by the coordinates of its module, flips it by the printed mask
conditions and reads the count in a width of its own. Below it stand the field laws, the roots of the
Reed-Solomon divisor, the distance of the code, lossless interleaving, the zigzag that visits every module
once, the penalty score against the definition of runs, squares and balance, and the choice of the first
least-penalised mask.

**The guarded protocol** (`src/eth_wallet_ui_guard.h`, `_scope.h`, `_apply.h`, `_backend.cpp`). Claims with
deadlines and the coalescing lane are classes; `LaneRuns` runs a lane through requests, answers that are late
or lost, lapse timers and the clock. `WalletProtocol` is the whole view as a state machine, in which each
published value carries the selection its call was issued under, and `WalletSafety` proves what every run
keeps; `WalletScreens` says, from the call and the reply alone, what each event sends out and leaves on
screen; `WalletLanes` takes each of the view's two lanes through a lane run alongside. `WalletBackend` is the
object itself: fields that methods update, properties published one setter at a time; it follows the state
machine, and every intermediate update the view is shown is safe.

**Blocked nonces and replacement prices** (`src/eth_wallet_ui_nonce.h`). The nested loops over rows, maps and
sets are proved against a report per chain, and that report against a statement about the set of rows that
no order enters; `NonceOrder` says exactly when the order of the rows makes no difference. A priced resend
outbids every attempt it replaces.

**Two small exact pieces**: the intent check that is made twice (`src/eth_wallet_ui_intent.h`), and the wei to
gwei printer (`src/qml/kit/fees.js`).

## What was found

- The level H row of the block-count table is not the standard's: it gives the printed capacity for versions 1
  to 7, 9 and 12 only, while levels L, M and Q do for every version (`SymbolTables.CapacityAsPrinted`). In
  versions 31 to 40 its blocks hold more check codewords than the symbol has codewords (`QrTables.TablesFit`,
  exactly those ten entries); the capacity comes out negative there, so the version loop of `encodeBytes` never
  takes them. The view only uses level M.
- Balances and history are stamped with the chain on screen when they arrive, so `answersFor` cannot tell
  which chain they were read for (`Scope.StampedIsChainBlind`); only the generation counter keeps them off
  another network's screen (`WalletSafety.StampAloneIsNotEnough`).
- The blocked nonce of a chain, and the number of later ones, never depend on the order of the rows
  (`NonceOrder.NonceIgnoresOrder`). Whether it is reported, since when, why, and with which offer can: when two
  newest attempts share a timestamp (`NonceOrder.TiesDependOnOrder`), or when a timestamp of 0 is mixed with
  positive ones behind a stranded nonce (`NonceOrder.ZeroTimestampsDependOnOrder`). No order changes the report
  exactly when, on each chain, the newest attempts at the least open nonce agree in what is reported of them, or,
  if it was never sent, the rows behind it have a negative timestamp among them or do not mix zeros with positive
  ones, or the clock has not reached 180 (`NonceOrder.ReportOrderFreeExactly`).
- The second intent check sends from the same account text as was reviewed exactly when that text has no white
  space around it, or is all white space and still selected (`Intent.WhatWasReviewedIsSent`, and an input in
  `Intent.PaddedAccount`); a request that names its account, or a selected account without surrounding white
  space, is always of the first kind.

## How it is modelled

- Codewords are `bv8`; the wide intermediate values of the multiplication and the format and version words are
  `bv32`. A list the source grows is a `seq` variable, a buffer it overwrites is an array, the modules are
  `array2<bool>`. `JSON` text is a datatype holding the fields that are read; a form is equal to another when
  all its fields are, with `rest` for those that do not decide whether it describes a send.
- The generation counters, tickets and timestamps are unbounded integers. Fees are 64-bit: `Wei` is a bounded
  type, so that no operation on it overflows is part of what is verified.
- Letters are folded and white space trimmed for ASCII.
- The clock is an integer the environment moves. A call answers once at most, at any time, or never.
- `label` is a word of the language, so the text shown for a row or a call is called `caption`.
- The `ScopedState` of the source is a snapshot: a value here too. `EthWalletUiSource` holds the published
  properties that the generated base class of the backend holds in the source.
- `Math.ceil` of the balance term is taken as exact: its quotients are far from any rounding for symbols of at
  most 177 x 177 modules.

## Model

| member | source | states |
|---|---|---|
| GaloisField.Multiply | src/qml/qrcodegen.js:93-100 | The eight-step loop with its wide intermediate value computes the product of GF(2^8) modulo 0x11D, given as a sum of doublings |
| GaloisField.MulComm | src/qml/qrcodegen.js:93-100 | The product is commutative |
| GaloisField.MulAssoc | src/qml/qrcodegen.js:93-100 | The product is associative |
| GaloisField.NoZeroDivisors | src/qml/qrcodegen.js:93-100 | A product is zero exactly when a factor is |
| GaloisField.PowersRepeat | src/qml/qrcodegen.js:93-100 | Two powers of 2 are equal exactly when their exponents agree modulo 255 |
| ReedSolomon.ComputeDivisor | src/qml/qrcodegen.js:102-115 | The in-place loop computes the product of (x - 2^m) for m below the degree, its leading 1 dropped; degree 0 gives [1] |
| ReedSolomon.GeneratorRoots | src/qml/qrcodegen.js:102-115 | That product vanishes exactly at 2^0, .., 2^(degree - 1) |
| ReedSolomon.ComputeRemainder | src/qml/qrcodegen.js:117-126 | The shift register computes the remainder of long division by the divisor |
| ReedSolomon.CodewordVanishes | src/qml/qrcodegen.js:117-126 | Data of any length followed by its remainder vanishes wherever the divisor does |
| MinimumDistance.CodewordDistance | src/qml/qrcodegen.js:102-126 | Two different blocks of at most 255 codewords differ in at least degree + 1 places once their remainders are appended |
| MinimumDistance.CorrectionIsUnique | src/qml/qrcodegen.js:102-126 | A word within half the degree of two codewords comes from one block of data |
| MinimumDistance.CheckBytesAreUnique | src/qml/qrcodegen.js:117-126 | The remainder is the only continuation of the data that vanishes at every root |
| QrTables.TablesFit | src/qml/qrcodegen.js:29-40 | Every table entry lays out blocks the interleaver can handle, but for level H in versions 31 to 40 |
| QrTables.OverfullCapacity | src/qml/qrcodegen.js:86-89 | The data capacity of those ten entries is negative |
| SymbolTables.CapacityAsPrinted | src/qml/qrcodegen.js:29-40 | The data capacity is the one printed in table 7 of ISO/IEC 18004:2015 for every version at levels L, M and Q, and at level H exactly for versions 1 to 7, 9 and 12 |
| SymbolTables.CodewordsAsPrinted | src/qml/qrcodegen.js:76-84 | The computed number of codewords is the printed one for all forty versions |
| SymbolTables.CentresAsPrinted | src/qml/qrcodegen.js:177-186 | The computed centres of the alignment patterns are the printed ones for all forty versions |
| Interleaving.Layout.Interleave | src/qml/qrcodegen.js:144-152 | The nested loops read the blocks column by column, the placeholders of short blocks left out |
| Interleaving.Layout.Interleaved | src/qml/qrcodegen.js:144-152 | The result has exactly the raw number of codewords, and every codeword of every block is in its place |
| Interleaving.Layout.PositionIsBijective | src/qml/qrcodegen.js:144-152 | Every place of the result holds one codeword of one block and no placeholder |
| ErrorCorrection.AddEccAndInterleave | src/qml/qrcodegen.js:128-153 | Cutting, appending remainders and interleaving give the stream of the layout |
| ErrorCorrection.StreamBlock | src/qml/qrcodegen.js:128-153 | De-interleaving gives back each block's data and its check codewords |
| ErrorCorrection.StreamRecovers | src/qml/qrcodegen.js:128-153 | Dropping the check codewords and joining the blocks gives back the data |
| ErrorCorrection.BlockIsCorrectable | src/qml/qrcodegen.js:128-153 | A block of any symbol damaged in at most half as many places as it has check codewords determines its data |
| SegmentBits.BitBuffer.Append | src/qml/qrcodegen.js:50-53 | Appends the low bits of a value, most significant first |
| SegmentBits.BitsMeaning | src/qml/qrcodegen.js:50-53 | Bit i of a value appended in n bits is its binary digit of weight 2^(n - 1 - i) |
| SegmentBits.ChooseVersion | src/qml/qrcodegen.js:387-392 | The least version that holds the segment, or none exactly when none of the forty does |
| SegmentBits.FittingSymbol | src/qml/qrcodegen.js:387-396 | A version that fits is never an overfull one, and the length fits its count field |
| SegmentBits.BuildBits | src/qml/qrcodegen.js:394-402 | Mode, count, payload, terminator, alignment and alternating pads, ending exactly at capacity |
| SegmentBits.PaddedMeaning | src/qml/qrcodegen.js:399-402 | Each bit after the payload: up to four terminator zeros, zeros to the next codeword, then 11101100 and 00010001 in turn up to capacity |
| SegmentBits.ParseSegment | src/qml/qrcodegen.js:394-402 | Whatever follows a segment, parsing mode, count and payload returns the data |
| CodewordBits.PackBits | src/qml/qrcodegen.js:404-407 | Packing bits into codewords by OR computes the codewords that have those bits |
| CodewordBits.CodewordBitMeaning | src/qml/qrcodegen.js:404-407 | Bit k of the codewords has weight 2^(7 - k mod 8) in codeword k / 8 |
| CodewordBits.PackAllBits | src/qml/qrcodegen.js:404-407 | Unpacking and packing are inverse |
| QrSymbol.QrCode.DrawAlignmentPatterns | src/qml/qrcodegen.js:177-186 | The patterns at the published centres, but for the three corners, each in its own colours, and nothing else |
| SymbolGeometry.AlignmentsDisjoint | src/qml/qrcodegen.js:177-186 | No module belongs to two alignment patterns, for any version |
| QrSymbol.QrCode.DrawFormatBits | src/qml/qrcodegen.js:188-204 | Both copies of the 15 bits of format information and the dark module, and nothing else |
| QrSymbol.QrCode.DrawVersion | src/qml/qrcodegen.js:206-218 | Both copies of the 18 bits of version information from version 7 on, and nothing else |
| QrSymbol.QrCode.DrawFunctionPatterns | src/qml/qrcodegen.js:220-240 | Exactly the function modules are marked, with the colours that remain where one pattern is drawn over another |
| InformationDistance.FormatDistance | src/qml/qrcodegen.js:188-192 | Two different words of format information differ in at least 7 bits |
| InformationDistance.VersionDistance | src/qml/qrcodegen.js:206-210 | Two different words of version information differ in at least 8 bits |
| InformationDistance.VersionReads | src/qml/qrcodegen.js:206-210 | The upper bits of the version information are the version |
| InformationTables.FormatWords | src/qml/qrcodegen.js:188-192 | The 32 words of format information are those printed in table C.1 of ISO/IEC 18004:2015 |
| InformationTables.VersionWords | src/qml/qrcodegen.js:206-210 | The 34 words of version information are those printed in table D.1 |
| InformationTables.Digits | src/qml/qrcodegen.js:48 | The bits drawn are the binary digits of those words |
| Zigzag.PathCovers | src/qml/qrcodegen.js:242-259 | The zigzag visits every module outside column 6 exactly once, for every odd size from 9 on |
| Zigzag.PathPlacement | src/qml/qrcodegen.js:242-259 | Where on the zigzag each module stands, in coordinates: pair p from the right holds places 2 size p on, upward when p is even, the right column first |
| SymbolCapacity.RoomForCodewords | src/qml/qrcodegen.js:76-84 | In each of the forty versions the unmarked modules on the zigzag are at least as many as the raw data modules |
| QrSymbol.QrCode.DrawCodewords | src/qml/qrcodegen.js:242-259 | Bit k of the stream is in the k-th unmarked module of the zigzag, whose order `Zigzag.PathPlacement` gives in coordinates, until bits or modules run out; no other module changes |
| Masking.ApplyMask | src/qml/qrcodegen.js:261-279 | Inverts exactly the modules that are no function modules and that the mask selects |
| SymbolReading.FlipsUndoesMask | src/qml/qrcodegen.js:261-279 | What is inverted is exactly what the eight conditions printed in table 10 of ISO/IEC 18004:2015 select |
| Masking.HideMask | src/qml/qrcodegen.js:361-380 | Applying a mask a second time undoes it |
| Masking.Reformat | src/qml/qrcodegen.js:188-204 | Format information overwrites only function modules, never version information, and nothing else depends on the mask |
| PenaltyRuns.RunsAreUnique | src/qml/qrcodegen.js:305-325 | The runs that the single pass follows are the only way to cut a line into maximal runs |
| PenaltyRuns.ScanSame | src/qml/qrcodegen.js:313-317 | A module of the open run's colour adds 3 at length 5 and 1 beyond, so L - 2 over a run |
| PenaltyRuns.ScanOther | src/qml/qrcodegen.js:317-322 | A module of the other colour closes the run, and a closed light run counts the finder patterns that end there |
| PenaltyRuns.TerminateAndCount | src/qml/qrcodegen.js:295-303 | The last run and the quiet zone after it count the patterns that are left |
| PenaltyScore.RowPenalty | src/qml/qrcodegen.js:310-325 | The single pass over a row computes the penalty of the line's runs |
| PenaltyScore.ColumnPenalty | src/qml/qrcodegen.js:326-341 | The pass over a column computes the same of the column's line |
| PenaltyScore.BalanceIsLeast | src/qml/qrcodegen.js:352-357 | The balance term is never negative, because the number of modules is odd: it is 10k for the least k whose range the dark share lies in |
| PenaltyScore.GetPenaltyScore | src/qml/qrcodegen.js:305-359 | The score is the sum over rows and columns, three for each one-coloured square, and the balance term |
| Masking.MakeQr | src/qml/qrcodegen.js:361-384 | The symbol is the candidate of the lowest mask among those with the least penalty of the eight |
| SymbolReading.FormatReads | src/qml/qrcodegen.js:188-192 | Five modules of the format information give back the correction level and the mask |
| SymbolReading.CarrierIsFilled | src/qml/qrcodegen.js:242-259 | The module that has exactly k data modules before it, by its coordinates, is the one the drawing fills with bit k |
| SymbolReading.DecodeCandidate | src/qml/qrcodegen.js:361-384 | A symbol with any of the eight masks, read from its modules alone, reads as its codewords do |
| SymbolEncoding.SymbolStandsForData | src/qml/qrcodegen.js:386-410 | Any bytes that fit a version are what the symbol decodes to, under any mask |
| SymbolEncoding.FitsExactly | src/qml/qrcodegen.js:388-392 | A version is taken to fit exactly when its data codewords can begin with the segment |
| SymbolEncoding.SymbolsAreDistinct | src/qml/qrcodegen.js:386-410 | At one version and level, different bytes or masks give different symbols |
| SymbolEncoding.EncodeBytes | src/qml/qrcodegen.js:386-410 | None exactly when no version fits; otherwise the least version, the first least-penalised mask, and a symbol that decodes to the input for a reader with its own order, masks and count width |
| Guards.InFlight.Take | src/eth_wallet_ui_guard.h:39-47 | A claim is taken under the next ticket until its deadline, or refused without effect while one is live |
| Guards.InFlight.Release | src/eth_wallet_ui_guard.h:48-52 | Only the claim in force is released |
| Guards.AsyncLane.TakeLane | src/eth_wallet_ui_guard.h:89-95 | The lane is taken, or the request coalesced behind the live call |
| Guards.AsyncLane.LaneFinish | src/eth_wallet_ui_guard.h:102-108 | The queued re-run is drained once |
| LaneRuns.OneLiveClaim | src/eth_wallet_ui_guard.h:31-61 | At most one claim is neither completed nor expired, and the lane is busy exactly then |
| LaneRuns.StaleCompletion | src/eth_wallet_ui_guard.h:48-55 | A completion whose claim was replaced neither frees the lane nor hands it on |
| LaneRuns.RunInv | src/eth_wallet_ui_backend.cpp:151-171 | In every run, whenever a re-run is queued or the spinner is up, the lapse timer of the claim in force is pending; tickets only grow |
| LaneRuns.TicketsGrow | src/eth_wallet_ui_guard.h:39-47 | A new claim has the next ticket, and none is made while one is live |
| LaneRuns.QuietWhenTimersFired | src/eth_wallet_ui_backend.cpp:151-171 | Once the timers have fired nothing is queued, up or busy, even if no call ever answered |
| LaneRuns.EverythingComesDown | src/eth_wallet_ui_backend.cpp:151-171 | Without new requests only so many answers, losses and timers can come, and when the timers have fired nothing is queued, up or busy |
| LaneRuns.TimersAloneSettle | src/eth_wallet_ui_backend.cpp:151-171 | From every state, with every callback lost, the timers alone bring everything down, in exactly that many events |
| LaneRuns.TimersCanFire | src/eth_wallet_ui_backend.cpp:158-161 | Until then a timer is pending that the clock alone lets fire, and it drains the queue |
| WalletLanes.StepTied | src/eth_wallet_ui_backend.cpp:151-171 | Each event of the view is one enabled event of a lane, or none: requests, completions, lost first legs, lapse timers and the clock |
| WalletLanes.RunFollows | src/eth_wallet_ui_backend.cpp:151-171 | Every run of the view takes each lane through a lane run with the same claims, queue, clock, timers and outstanding tickets |
| WalletLanes.QueuedWorkHasATimer | src/eth_wallet_ui_backend.cpp:156-161 | In every run of the view, while a re-run is queued or a claim is live, the lapse timer of the claim in force is still to fire |
| Scope.StampedIsChainBlind | src/eth_wallet_ui_apply.h:98-116 | A stamped reply passes the check whatever chain it was read for: only the account is checked |
| Scope.DescribesMeaning | src/eth_wallet_ui_scope.h:132-138 | A form describes a send exactly when its recipient and one of its amounts are more than white space |
| WalletSafety.BalancesKeep | src/eth_wallet_ui_apply.h:134-146 | Balances keep the screen scoped, if their call was issued under the selection shown |
| WalletSafety.HistoryKeeps | src/eth_wallet_ui_apply.h:155-180 | So do history and blocked nonces |
| WalletSafety.QuoteKeeps | src/eth_wallet_ui_apply.h:230-251 | A quote reply leaves the newest request or none beside the figures that priced it |
| WalletSafety.VerdictKeeps | src/eth_wallet_ui_apply.h:295-323 | A quote or a route on screen was published beside the verdict that still stands |
| WalletSafety.EnterScopeKeeps | src/eth_wallet_ui_scope.h:197-219 | Nothing scoped outlives the selection it was read under |
| WalletSafety.StepInv | src/eth_wallet_ui_backend.cpp:112-130 | Every event keeps the invariant, a move of the selection among them |
| WalletSafety.EveryRunIsSafe | src/eth_wallet_ui_backend.cpp:398-598 | In every run everything scoped on screen came from a call issued under the selection shown, fees from one under its chain, and the published request is the newest or none |
| WalletSafety.LateRepliesSayNothing | src/eth_wallet_ui_backend.cpp:419-445 | What a reply says makes no difference, for every call but a send, once its claim was replaced or its generation has passed; with its claim replaced it changes nothing |
| WalletSafety.MovesOutdateCalls | src/eth_wallet_ui_backend.cpp:117-123 | A move away and back makes every earlier call late |
| WalletSafety.EditsOutdateQuotes | src/eth_wallet_ui_backend.cpp:554-558 | An edit away and back makes every earlier quote call late |
| WalletSafety.StampAloneIsNotEnough | src/eth_wallet_ui_backend.cpp:426-434 | Without the generation check a reply for another network would be shown under this one |
| WalletSafety.EditIsQueued | src/eth_wallet_ui_backend.cpp:577-581 | An edit that finds the lane busy is queued for the newest request |
| WalletSafety.QueuedEditsAreReplayed | src/eth_wallet_ui_backend.cpp:44-50 | A queued edit stays queued through every event but the one that hands the lane on, which sends it as an edit of the newest request, or drops it if the form describes no send by then |
| WalletScreens.BalancesArrive | src/eth_wallet_ui_apply.h:134-146 | A timely answer puts its balances and the route of the chain shown on screen and makes it fresh; a refusal blanks both; another account changes nothing |
| WalletScreens.HistoryArrives | src/eth_wallet_ui_apply.h:155-180 | A timely answer puts its rows, blocked chains and blocked nonces on screen, each in its own place; a refusal blanks rows and blocked nonces; another account changes nothing |
| WalletScreens.NothingToRead | src/eth_wallet_ui_apply.h:218-225 | Without an account the screen says there is nothing, and that it is fresh |
| WalletScreens.FeesArrive | src/eth_wallet_ui_apply.h:185-188 | Timely fees for the chain and account shown are on screen, and otherwise none |
| WalletScreens.QuoteArrives | src/eth_wallet_ui_apply.h:230-251 | A timely quote shows its figures beside the request it priced, withdraws them, words the refusal of an edit, or marks them stale; then a queued re-run enters the newest request |
| WalletScreens.FiguresStand | src/eth_wallet_ui_backend.cpp:586-596 | Figures that arrive in time price the newest request and stay, whether or not a re-run was queued |
| WalletScreens.DetailsArrive | src/eth_wallet_ui_apply.h:256-283 | Details are shown exactly for the hash asked for, and silence as a failure naming it |
| WalletScreens.VerdictArrivesMeaning | src/eth_wallet_ui_apply.h:295-323 | The verdict shown and the count of silent ones after each verdict, and what a change of mode or state withdraws |
| WalletScreens.SendArrives | src/eth_wallet_ui_apply.h:341-352 | The refusal of a send is shown while its selection is held; an accepted one closes the review |
| WalletScreens.ResendArrives | src/eth_wallet_ui_backend.cpp:735-796 | Each leg of a resend goes on to the next or gives its claim up, and the last puts the request and its quote up for review |
| WalletScreens.MovesMeaning | src/eth_wallet_ui_scope.h:197-219 | What a move of the selection leaves: tokens, fees and verdict exactly when the chain stays, nothing else |
| WalletScreens.ReloadSends | src/eth_wallet_ui_backend.cpp:398-417 | A reload takes the lane for 41 seconds and asks for the balances of the account shown, or is queued behind a live claim |
| WalletScreens.HistoryFollows | src/eth_wallet_ui_backend.cpp:435-450 | The second call asks for what the first did, under the same claim and generation |
| WalletScreens.EditSends | src/eth_wallet_ui_backend.cpp:554-598 | A request enters as the newest; if it describes a send it goes out for 131 seconds under its own generation, or is queued, still as an edit |
| ProxySilence.SilenceIsCounted | src/eth_wallet_ui_apply.h:295-306 | In every run the counter is the number of silent verdicts since the last answer or move of the chain |
| ProxySilence.SilenceIsShown | src/eth_wallet_ui_apply.h:295-306 | Three silent verdicts since then leave on screen that the verdict on the chain shown is unknown |
| WalletBackend.MixedIsPresentable | src/eth_wallet_ui_backend.cpp:93-110 | After any number of the fifteen setters the screen is scoped, and figures shown with a request priced it |
| WalletBackend.MoveIsPublishable | src/eth_wallet_ui_backend.cpp:112-130 | A move withdraws first, so none of its updates shows one selection's figures under another |
| WalletBackend.EthWalletUiSource.PublishScope | src/eth_wallet_ui_backend.cpp:93-110 | A snapshot is published setter by setter, each an update that is safe to show |
| WalletBackend.EthWalletUiBackend.PublishSelection | src/eth_wallet_ui_backend.cpp:112-130 | The object moves as the state machine does, and shows only safe updates on the way |
| WalletBackend.EthWalletUiBackend.Handle | src/eth_wallet_ui_backend.cpp:398-836 | For every event the object follows the state machine, so what holds of every run holds of it |
| WaitingRows.MarkReplaced | src/eth_wallet_ui_nonce.h:40-60 | Length and order are kept, and exactly the superseded rows are flagged |
| WaitingRows.MarkedIsIdempotent | src/eth_wallet_ui_nonce.h:40-60 | Flagging twice flags nothing more |
| WaitingRows.NothingMinedWaits | src/eth_wallet_ui_nonce.h:40-60 | After flagging no waiting row has a nonce that its chain has mined |
| BlockedNonces.BlockedNonces | src/eth_wallet_ui_nonce.h:89-204 | The loops return one entry for each blocked chain, in increasing order of the chains |
| BlockedNonces.ReportIsUnique | src/eth_wallet_ui_nonce.h:127-204 | No other list is such a report |
| NonceReport.EntryIsTrue | src/eth_wallet_ui_nonce.h:89-204 | The entry of a nonce that was sent is true of the rows: the least open nonce, the number of later ones, the 180 seconds, a newest attempt, the greatest fees; where nothing is left to the order of the rows, an entry is in the report exactly when it is true |
| NonceReport.TransferIsRead | src/eth_wallet_ui_nonce.h:63-78 | The offer of a row, in the fields of its description: a token transfer of exactly its recipient, amount and token, a native one of recipient and amount, and none where a field is missing or the kind is another |
| NonceReport.EntriesPersist | src/eth_wallet_ui_nonce.h:158-181 | An entry stays as it is while time passes |
| NonceOrder.OrderFreeExactly | src/eth_wallet_ui_nonce.h:132-198 | No order of the rows changes a chain's entry exactly when the newest attempts at its least open nonce agree, or the rows behind a stranded one do not mix zero and positive timestamps without a negative one, or the clock is below 180 |
| NonceOrder.ReportOrderFreeExactly | src/eth_wallet_ui_nonce.h:89-204 | No order of the rows changes the report exactly when that holds of every chain |
| NonceOrder.NonceIgnoresOrder | src/eth_wallet_ui_nonce.h:132-152 | Whatever the order, the entries of a chain name one nonce with one number behind it |
| NonceOrder.OrderDoesNotMatter | src/eth_wallet_ui_nonce.h:89-204 | So the report depends only on which rows there are, when every waiting row is dated and attempts at one nonce are distinct in time |
| NonceOrder.TiesDependOnOrder | src/eth_wallet_ui_nonce.h:166-172 | Two attempts with one timestamp: the first in the list is taken |
| NonceOrder.ZeroTimestampsDependOnOrder | src/eth_wallet_ui_nonce.h:147-149 | A timestamp of 0 counts as none when it comes first |
| NonceReport.MarkingChangesNoReport | src/eth_wallet_ui_apply.h:171-178 | Flagging replaced rows changes no report |
| Replacement.BumpIsTight | src/eth_wallet_ui_nonce.h:226 | The bump is accepted as a replacement, and exceeds the least accepted fee by 1 at most, exactly on positive multiples of ten |
| Replacement.FeesAreLeast | src/eth_wallet_ui_nonce.h:214-230 | The priced pair is the least one at or above the market and both bumps whose tip does not exceed its fee |
| Replacement.RequestExactly | src/eth_wallet_ui_nonce.h:233-241 | There is a request exactly when the entry has an offer, all four fees can be read and both floors are in range; it is that offer |
| Replacement.RefusalsExactly | src/eth_wallet_ui_nonce.h:214-227 | Which of the three reasons a price is refused for |
| Replacement.ResendOutbidsEveryAttempt | src/eth_wallet_ui_nonce.h:165-241 | A priced resend takes the blocked nonce, sends from a newest attempt's account the transfer its description names, and outbids every attempt waiting there on both fields |
| Intent.LooksLikeAddress | src/eth_wallet_ui_intent.h:33-44 | True exactly of 0x and forty hexadecimal digits |
| Texts.SameTextMeaning | src/eth_wallet_ui_intent.h:85 | Accounts are the same exactly when they differ in the case of letters at most |
| Texts.TrimmedExactly | src/eth_wallet_ui_intent.h:80 | Trimming leaves the one part that starts and ends with other characters, with only white space around it |
| Intent.CheckIntentSend | src/eth_wallet_ui_intent.h:49-152 | The first reason to refuse, in order, or a review with every field and call as it was asked for |
| Intent.AnswersIsAFunction | src/eth_wallet_ui_intent.h:49-152 | The check has one answer |
| Intent.WhatWasReviewedIsSent | src/eth_wallet_ui_backend.cpp:999-1029 | A review accepted again, in any wallet, sends the same calls, chain, purpose and tier; a label shorter than 120 characters is the same, and one of 120 may lose white space that the cut left at its end; the account text is the same exactly under the condition stated |
| Intent.WhatWasAskedIsSent | src/eth_wallet_ui_intent.h:49-152 | Through both checks: call i sent has the trimmed recipient, value, data and gas limit of call i asked, its description with "app" and "intent" set over it, and its label as in the review |
| Intent.AcceptedAgain | src/eth_wallet_ui_backend.cpp:999-1029 | A review passes again exactly when the wallet can now send on its chain from its account, and is refused for no other reason |
| Intent.NamedAccountsAgree | src/eth_wallet_ui_intent.h:80-89 | A named account, or a selected one without surrounding white space, is reviewed without any |
| Intent.PaddedAccountChanges | src/eth_wallet_ui_intent.h:80-82 | A selected account with surrounding white space, not named, is sent as another text than was reviewed |
| Intent.PaddedAccount | src/eth_wallet_ui_backend.cpp:999-1029 | A request and a wallet for which both checks accept and the account texts differ |
| Gwei.FormatGwei | src/qml/kit/fees.js:18-25 | The padding loop and slices print the number; anything but a whole number prints as nothing |
| Gwei.GweiIsExact | src/qml/kit/fees.js:18-25 | The printed decimal denotes the wei exactly, with no trailing fractional zeros and no superfluous leading ones |
| Gwei.PrintAlike | src/qml/kit/fees.js:18-25 | Two amounts print alike exactly when they are the same number |
| Gwei.NothingIsNotWei | src/qml/kit/fees.js:9-20 | Nothing is printed exactly for what is not a whole number |

## Left out

- `toUtf8` and `modules`: the encoder is modelled from bytes to modules, not from text to a string of 0 and 1.
- Text in JSON: parsing, printing, numbers that are not integers, and key order. Replies are datatypes of the fields that are read.
- Remote modules: any reply, or none, at any time.
- `applyTokens`, `networkStep` and `mayAdopt`, which nothing calls, and `tokens` as a scoped value: it is a list over all networks.
- Loading networks and accounts: their effects on the selection are the events `SelectAccount` and `SelectNetwork`, which may happen at any time, as they may inside the synchronous calls that load them.
- The spinners of the backend, other than a lane's in `LaneRuns`; the QML components; `lastError`; the schedules of the polls, which are events that may happen at any time.
- WalletBackend.EthWalletUiBackend.ApplyVerifiedProxy: does not start or stop the poll; `ApplyVerdict` still answers whether it should run.
- WalletBackend.EthWalletUiBackend.ResendReply: takes the price of the request as given; `Replacement` is the model of how it is computed.
- Scope.ApplyHistory: takes the flagged rows and the blocked nonces as the reply's text; `WaitingRows` and `BlockedNonces` are the models of how they are computed from it.
- WalletBackend.EthWalletUiBackend: the claims are values held in its fields; that the classes of `Guards` behave as those values is proved of the classes.
- A send that overwrites a pending one: `submitSend` does not check for it, the QML does.
- `sendPolled`, `answerFromOutcome`, sweeps, contacts, token order and roster labels: straight-line code over single values.
