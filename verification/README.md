# Multiplayer match server: a verified model of its core

The server pairs two game clients into a lobby and relays their moves. It
decides who wins each round and each match by comparing scores too large for
ordinary numbers, and it watches each TCP connection with keep-alive probes.
This project models three parts of it in Dafny and proves properties about
them.

- **`InsaneInt`** (`insane_int.dfy`, module `InsaneNumber`) is the layered
  score number. It is a triple `(startingECount, coefficient, exponent)`.
  - The class `InsaneInt` keeps the source's three mutable fields.
  - `FromString` is the loop that strips leading `e`s, and `ToString` is the
    loop that appends them.
  - `Balance` is the rewrite loop, one in-place method per rewrite rule.
    `Add` and `Div` balance both operands in place and then build a new,
    balanced number.
  - Each method is proved against a pure function. `Parse`, `Render`,
    `BalanceRun`, `AddRun` and `DivRun` state what the methods compute, and the
    lemmas about them state the number's properties. These cover the
    round-trip, the order, balance soundness and idempotence, the symmetry of
    addition, and division by zero.
- **Round and match adjudication** (`handlers.dfy`, module `ActionHandlers`)
  is a `Session` class. It holds the lobby, the client, the enemy and an
  outbox of everything sent.
  - Each handler is a method that updates these fields.
  - Each method is specified by a function on the whole state. Lemmas about
    those functions state what each handler promises:
    - who gets "winGame", "loseGame", "endPvP" or "speedrun", and exactly once;
    - whose lives drop, and by how much;
    - that nothing else changes.
- **The connection** (`connection.dfy`, module `Connection`) is a `Connection`
  class.
  - It holds the keep-alive watchdog's variables (`isRetry`, `retryCount`),
    the two timers and the socket state.
  - Timer expiries, received data and socket end/error are methods.
  - The record loop over the newline-split input stops at the first empty
    record.
  - It includes the three ad-hoc codecs: `serializeAction`, `stringToJson` and
    `scientificNotationToBigInt`. `serializeAction` is exported for
    the rest of the server. The other two are helpers
    with no caller in the server, so their lemmas are properties of those
    helpers, not of the live record path.
- `text.dfy` (module `Text`) holds the shared text model:
  - digits and powers of ten;
  - `String.split` and `join`;
  - JavaScript's `Number(s)` and `BigInt(s)` on decimal text;
  - the decimal rendering of a number.

Numbers are exact `real`s and `int`s. JavaScript's `NaN` is `None`. A
handler's sends are `Send` entries in an outbox, and the lobby calls
`resetPlayers` and `join` are `Call` entries.

In three places where one might expect otherwise, the model follows the
code:
- `(0, 15, 0)` is already balanced and is left unchanged (`PlainBalanced`);
  it is not rewritten to `(0, 1.5, 1)`.
- Text that `Number()` cannot read gives `NaN` fields, modelled as a `None`
  parse, rather than an error.
- A number whose balance does not settle is reported as `GaveUp` after a cap
  of 64 passes. The source itself loops forever on it (see Findings).

## Model

| member | source | states |
|---|---|---|
| Text.JoinSplit | src/main.ts:149 | Splitting text on a separator and joining the pieces back gives the text again, so splitting loses no character |
| Text.SplitJoin | src/main.ts:149 | Pieces free of the separator, once joined with it, split back into exactly those pieces |
| Text.SplitPair | src/main.ts:54 | Two pieces without the separator, joined by one separator, split into exactly those two pieces |
| Text.RenderRoundTrip | src/InsaneInt.ts:33-37 | `Number()` reads back exactly the number whose decimal text the renderer wrote, for every finite decimal |
| Text.RenderNat | src/InsaneInt.ts:48 | A whole number is rendered as its plain digit string |
| Text.DigitsRoundTrip | src/InsaneInt.ts:48 | The digit string of a natural number reads back as that number |
| InsaneNumber.InsaneInt.constructor | src/InsaneInt.ts:6-10 | The new number holds exactly the three given fields |
| InsaneNumber.InsaneInt.Copy | src/InsaneInt.ts:13-15 | Converting an `InsaneInt` gives a fresh copy with the same triple |
| InsaneNumber.Parse | src/InsaneInt.ts:12-40 | definition; properties stated by `ParseRender`, `ParseCountsLeadingE`, `ParseWithoutExponent`, `ParseFieldsExponent`, `ParseFieldsHash`, `ParseNoLeadingE` |
| InsaneNumber.Render | src/InsaneInt.ts:42-54 | definition; properties stated by `RenderLeadingEs`, `ParseRender` |
| InsaneNumber.GreaterThan | src/InsaneInt.ts:56-66 | definition; properties stated by `GreaterThanStrictOrder`, `Trichotomy` |
| InsaneNumber.EqualTo | src/InsaneInt.ts:68-70 | definition; properties stated by `Trichotomy` |
| InsaneNumber.LessThan | src/InsaneInt.ts:72-74 | definition; properties stated by `Trichotomy` |
| InsaneNumber.IsBalanced | src/InsaneInt.ts:76-95 | definition; properties stated by `BalancedIsCanonical`, `PlainBalanced` |
| InsaneNumber.BalanceRun | src/InsaneInt.ts:97-142 | definition; properties stated by `BalanceRunSound`, `BalanceKeepsBalanced`, `BalanceIdempotent`, `BalanceZero`, `FixpointNeverSettles` |
| InsaneNumber.AddRun | src/InsaneInt.ts:144-187 | definition; properties stated by `AddRunSymmetric`, `AddZero` |
| InsaneNumber.DivRun | src/InsaneInt.ts:189-219 | definition; properties stated by `DivByZero`, `DivKeepsDividendWraps`, `DivSelfStuck` |
| InsaneNumber.InsaneInt.FromString | src/InsaneInt.ts:12-40 | The loop that strips leading `e`s, followed by the `#` and `e` splitting, computes `Parse(text)`; `None` wherever `Number()` would give NaN |
| InsaneNumber.InsaneInt.ToString | src/InsaneInt.ts:42-54 | The append loop produces `Render` of the triple: `startingECount` `e`s, the coefficient, then `e` and the exponent only when it is not 0 |
| InsaneNumber.InsaneInt.Balance | src/InsaneInt.ts:97-142 | The loop's outcome is `BalanceRun` over at most 64 passes: it snaps a zero coefficient to `(0,0,0)`, stops when `isBalanced` holds, and the fields hold the outcome's value |
| InsaneNumber.InsaneInt.Iteration | src/InsaneInt.ts:98-141 | One iteration of the loop ends it where the run ends (no passes left, or a zero coefficient snapped to `(0,0,0)`, or NaN), and otherwise leaves fields from which the rest of the run continues |
| InsaneNumber.InsaneInt.Pass | src/InsaneInt.ts:104-140 | One pass of the loop body applies every rewrite rule in order, and the rest of the run continues from the rewritten value |
| InsaneNumber.InsaneInt.ShiftWrapInPlace | src/InsaneInt.ts:105-109 | A fractional exponent with wraps gives up one wrap and scales the exponent by ten per wrap removed |
| InsaneNumber.InsaneInt.FoldFractionInPlace | src/InsaneInt.ts:110-113 | A fractional exponent is floored and the coefficient divided by its JavaScript `% 1` part |
| InsaneNumber.InsaneInt.ShrinkCoefficientInPlace | src/InsaneInt.ts:116-120 | An oversized coefficient moves all but its first integer digit into the exponent |
| InsaneNumber.InsaneInt.GrowCoefficientInPlace | src/InsaneInt.ts:122-127 | A coefficient below 1 with a positive exponent is scaled up by `ceil(log10(1/c))` digits, capped at the exponent minus one; the result is NaN when `log10` of a negative number would be taken |
| InsaneNumber.InsaneInt.ShrinkExponentInPlace | src/InsaneInt.ts:130-134 | An oversized exponent keeps five integer digits and moves the rest into the wrap count |
| InsaneNumber.InsaneInt.GrowExponentInPlace | src/InsaneInt.ts:135-140 | A small non-zero exponent with wraps takes digits back from the wraps, keeping at least one wrap |
| InsaneNumber.InsaneInt.Add | src/InsaneInt.ts:144-187 | Each operand is left holding its own `balance()` outcome, also when both are the same number. The second is not touched when the first balance does not settle. The result is `AddRun` of their old values: aligned on wraps and exponents, then balanced |
| InsaneNumber.InsaneInt.Div | src/InsaneInt.ts:189-219 | Each operand is left holding its own `balance()` outcome, also when both are the same number. The second is not touched when the first balance does not settle. The result is `DivRun` of their old values: zero for a zero divisor, otherwise the dividend's wrap count with the aligned exponent and quotient |
| InsaneNumber.Step | src/InsaneInt.ts:104-140 | One pass never turns a non-zero coefficient into zero |
| InsaneNumber.FoldFraction | src/InsaneInt.ts:110-113 | Folding leaves a whole exponent and a non-zero coefficient |
| InsaneNumber.ShrinkCoefficient | src/InsaneInt.ts:116-120 | Shrinking keeps the coefficient non-zero and the exponent whole |
| InsaneNumber.GrowCoefficient | src/InsaneInt.ts:122-127 | Growing keeps the coefficient non-zero |
| InsaneNumber.ShrinkExponent | src/InsaneInt.ts:130-134 | Moving exponent digits into wraps leaves the coefficient unchanged |
| InsaneNumber.GrowExponent | src/InsaneInt.ts:135-140 | Moving wraps back into the exponent leaves the coefficient unchanged |
| InsaneNumber.JsMod1Zero | src/InsaneInt.ts:89 | The truncating `x % 1` is zero exactly when `x` is whole |
| InsaneNumber.BalanceRunPass | src/InsaneInt.ts:98-141 | An unbalanced value with a non-zero coefficient is rewritten by one pass; a NaN pass ends the run as not-a-number, otherwise the run continues |
| InsaneNumber.BalanceRunSound | src/InsaneInt.ts:97-142 | Whenever the loop reports that it returned, the value satisfies `isBalanced` |
| InsaneNumber.BalanceKeepsBalanced | src/InsaneInt.ts:98 | A balanced value leaves the loop at once, unchanged |
| InsaneNumber.BalanceIdempotent | src/InsaneInt.ts:97-142 | Balancing an already balanced result changes nothing |
| InsaneNumber.BalanceZero | src/InsaneInt.ts:99-103 | A zero coefficient always ends as the canonical zero `(0,0,0)` |
| InsaneNumber.BalanceBoth | src/InsaneInt.ts:146-147 | When both operands are the same object, the second balance finds the first one's result and leaves it as it is |
| InsaneNumber.BalancedIsCanonical | src/InsaneInt.ts:76-95 | `isBalanced` holds exactly when the triple is in canonical form (the ranges and whole-number conditions, spelled out independently) |
| InsaneNumber.PlainBalanced | src/InsaneInt.ts:83 | `(0, c, 0)` is balanced exactly when `c < 10000000`; in particular `(0, 15, 0)` is |
| InsaneNumber.FixpointNeverSettles | src/InsaneInt.ts:98-141 | An unbalanced value that no rewrite rule changes is never balanced, whatever the number of passes |
| InsaneNumber.WrapGapStuck | src/InsaneInt.ts:85 | `(2, 5, 50000)` is rejected by `isBalanced` and no rule changes it, so the loop never returns |
| InsaneNumber.SmallCoefficientStuck | src/InsaneInt.ts:122-127 | `(0, 0.5, 1)` is rejected, and the cap at line 124 makes the coefficient rule a no-op, so the loop never returns |
| InsaneNumber.WrapsWithoutExponentStuck | src/InsaneInt.ts:80 | Wraps with a zero exponent and a coefficient in [1, 10) are rejected, and no rule changes them, so the loop never returns |
| InsaneNumber.GreaterThanStrictOrder | src/InsaneInt.ts:56-66 | `greaterThan` is irreflexive and transitive |
| InsaneNumber.Trichotomy | src/InsaneInt.ts:56-74 | `equalTo` is field-wise equality, `lessThan(a, b)` is `greaterThan(b, a)`, and exactly one of the three holds |
| InsaneNumber.AddAlignedSymmetric | src/InsaneInt.ts:154-184 | Before the final balance, `a.add(b)` and `b.add(a)` build the same triple, whose wrap count is the larger of the two |
| InsaneNumber.AddRunSymmetric | src/InsaneInt.ts:144-187 | Addition is commutative, whether or not the balances return |
| InsaneNumber.AddZero | src/InsaneInt.ts:144-187 | Adding zero to a balanced number with non-negative exponent and wraps gives that number |
| InsaneNumber.DivByZero | src/InsaneInt.ts:194-197 | A divisor with zero coefficient gives the canonical zero, once the dividend balances |
| InsaneNumber.DivKeepsDividendWraps | src/InsaneInt.ts:201-216 | The quotient is built with the dividend's wrap count, even when the divisor has more wraps |
| InsaneNumber.DivSelfStuck | src/InsaneInt.ts:189-219 | A balanced number with wraps divided by itself never returns |
| InsaneNumber.SelfQuotient | src/InsaneInt.ts:201-216 | Dividing a number by itself builds `(startingECount, 1, 0)` |
| InsaneNumber.LeadingEs | src/InsaneInt.ts:22-26 | The number of leading `e`s stripped never exceeds the text's length |
| InsaneNumber.LeadingEsOf | src/InsaneInt.ts:22-26 | Stripping `k` leading `e`s from `e`s followed by other text counts exactly `k` and leaves that text |
| InsaneNumber.ParseCountsLeadingE | src/InsaneInt.ts:22-26 | Each leading `e` adds exactly one to `startingECount` and changes nothing else |
| InsaneNumber.ParseWithoutExponent | src/InsaneInt.ts:34-37 | Text with no `e` reads as its `Number()` value with exponent 0, and the `#` stays part of the coefficient text |
| InsaneNumber.HashIsNotNumber | src/InsaneInt.ts:35 | A coefficient text that kept its `#` is NaN |
| InsaneNumber.ParseFieldsExponent | src/InsaneInt.ts:33 | Text `a e b` reads as coefficient `Number(a)` and exponent `Number(b)` |
| InsaneNumber.ParseFieldsHash | src/InsaneInt.ts:28-33 | With an `e` present, a `#n` suffix adds `n` to `startingECount` and is removed before the coefficient and exponent are read |
| InsaneNumber.ParseNoLeadingE | src/InsaneInt.ts:22-23 | Text not starting with `e` gains no wraps from the loop |
| InsaneNumber.ParseRender | src/InsaneInt.ts:12-54 | Reading back the text `toString` writes gives the same triple, for non-negative wraps and finite decimal fields |
| InsaneNumber.RenderLeadingEs | src/InsaneInt.ts:44-46 | The rendered text starts with exactly `startingECount` `e`s, none for a negative count |
| InsaneNumber.ParseWrappedExample | src/InsaneInt.ts:22-38 | `"e5e100"` reads as `(1, 5, 100)` |
| InsaneNumber.ParseExponentExample | src/InsaneInt.ts:28-38 | `"1e5"` reads as `(0, 1, 5)` |
| InsaneNumber.ParseBareWrapExample | src/InsaneInt.ts:22-37 | `"e5"` reads as `(1, 5, 0)` |
| InsaneNumber.ParseHashExample | src/InsaneInt.ts:28-33 | `"1e5#3"` reads as `(3, 1, 5)` |
| ActionHandlers.EnemyIsOtherSeat | tests/lobby.test.ts:68-79 | The table's enemy is the player in the other seat, and there is none outside a lobby. This is how the model encodes the `getEnemy` behaviour that the test describes; `getEnemy` itself is not part of this model |
| ActionHandlers.AfterReadyBlind | src/actionHandlers.ts:119-145 | definition; properties stated by `ReadyBlindOutcome` |
| ActionHandlers.Session.ReadyBlindAction | src/actionHandlers.ts:119-145 | The new session state is `AfterReadyBlind` of the old one |
| ActionHandlers.ReadyBlindOutcome | src/actionHandlers.ts:119-145 | "speedrun" is sent once, and `firstReady` set, exactly when the client was not first-ready and the enemy is neither ready nor first-ready. When both seats are ready, both are unreadied, scores are reset to zero, hands to 4, and one "startBlind" is broadcast. Lives never change |
| ActionHandlers.AfterPlayHand | src/actionHandlers.ts:151-221 | definition; properties stated by `PlayHandUnseated`, `PlayHandInformsEnemy` |
| ActionHandlers.Session.PlayHandAction | src/actionHandlers.ts:151-221 | The new session state is `AfterPlayHand` of the old one |
| ActionHandlers.PlayHandUnseated | src/actionHandlers.ts:155-165 | Without both seats taken, a hand records nothing. The game is stopped when there is a lobby, and nothing happens otherwise |
| ActionHandlers.PlayHandInformsEnemy | src/actionHandlers.ts:167-178 | The client's score and hands are recorded, and the enemy is sent "enemyInfo" with the rendered score before anything else |
| ActionHandlers.AfterRoundCheck | src/actionHandlers.ts:182-220 | definition; properties stated by `RoundCheckExtends`, `RoundWinnerNotBehind`, `RoundContinues`, `RoundTied`, `RoundDecided`, `MatchOver` |
| ActionHandlers.Session.RoundCheck | src/actionHandlers.ts:182-220 | The new session state is `AfterRoundCheck` of the old one |
| ActionHandlers.RoundCheckExtends | src/actionHandlers.ts:182-220 | Round adjudication only appends to the outbox and never changes a score or a hand count |
| ActionHandlers.RoundWinnerNotBehind | src/actionHandlers.ts:189-193 | The round winner's score is not below the loser's, and a tie goes to the guest |
| ActionHandlers.RoundContinues | src/actionHandlers.ts:182-188 | While neither side has run out of hands behind, and not both have, nothing is sent and no one changes |
| ActionHandlers.RoundTied | src/actionHandlers.ts:195-219 | A tied round costs no lives; both sides get "endPvP" with `lost` false, and both `firstReady` flags clear |
| ActionHandlers.RoundDecided | src/actionHandlers.ts:195-219 | When both survive a decided round, the loser loses exactly one life and the winner none. The winner is told it did not lose and the loser that it lost, and both flags clear |
| ActionHandlers.MatchOver | src/actionHandlers.ts:195-211 | A life loss that leaves a side at 0 sends "winGame" to the side with more lives (the guest when equal) and "loseGame" to the other, once each, with no "endPvP"; both flags clear |
| ActionHandlers.AfterStopGame | src/actionHandlers.ts:223-229 | definition; properties stated by `StopGameOutcome` |
| ActionHandlers.Session.StopGameAction | src/actionHandlers.ts:223-229 | The new session state is `AfterStopGame` of the old one |
| ActionHandlers.StopGameOutcome | src/actionHandlers.ts:223-229 | With a lobby, "stopGame" is broadcast and the players are reset, once each; without one, nothing happens |
| ActionHandlers.AfterStartGame | src/actionHandlers.ts:86-117 | definition; properties stated by `StartGameOutcome` |
| ActionHandlers.Session.StartGameAction | src/actionHandlers.ts:86-117 | The new session state is `AfterStartGame` of the old one |
| ActionHandlers.StartGameOutcome | src/actionHandlers.ts:86-117 | Only the host starts a game. One "startGame" is broadcast, with a seed unless seeds differ; both players' lives are set from the lobby option or the mode's default; the guest is unreadied |
| ActionHandlers.AfterFailRound | src/actionHandlers.ts:243-285 | definition; properties stated by `FailRoundLives`, `FailRoundVerdict`, `FailRoundUnseated` |
| ActionHandlers.Session.FailRoundAction | src/actionHandlers.ts:243-285 | The new session state is `AfterFailRound` of the old one |
| ActionHandlers.FailRoundLives | src/actionHandlers.ts:247-249 | The client loses one life exactly when death on round loss is set; nothing else about the players changes |
| ActionHandlers.FailRoundVerdict | src/actionHandlers.ts:251-284 | At 0 lives outside survival: the enemy wins and the client loses. In survival: a tie on `furthestBlind` with a dead enemy is a double win; being behind is a loss; otherwise nothing is sent |
| ActionHandlers.FailRoundUnseated | src/actionHandlers.ts:244-245 | Without both seats taken, failing a round does nothing |
| ActionHandlers.AfterFailTimer | src/actionHandlers.ts:550-571 | definition; properties stated by `FailTimerOutcome` |
| ActionHandlers.Session.FailTimerAction | src/actionHandlers.ts:550-571 | The new session state is `AfterFailTimer` of the old one |
| ActionHandlers.FailTimerOutcome | src/actionHandlers.ts:550-571 | The client always loses a life; at 0 lives in a lobby, the other seat (if taken) gets "winGame" and the client "loseGame" |
| ActionHandlers.AfterSetFurthestBlind | src/actionHandlers.ts:339-356 | definition; properties stated by `SetFurthestBlindOutcome` |
| ActionHandlers.Session.SetFurthestBlindAction | src/actionHandlers.ts:339-356 | The new session state is `AfterSetFurthestBlind` of the old one |
| ActionHandlers.SetFurthestBlindOutcome | src/actionHandlers.ts:339-356 | The client's `furthestBlind` is always recorded. In survival, with a dead enemy now behind, the client wins and the enemy loses, once each |
| ActionHandlers.AfterJoinLobby | src/actionHandlers.ts:48-61 | definition; properties stated by `JoinLobbyOutcome` |
| ActionHandlers.Session.JoinLobbyAction | src/actionHandlers.ts:48-61 | The new session state is `AfterJoinLobby` of the old one |
| ActionHandlers.JoinLobbyOutcome | src/actionHandlers.ts:48-61 | A known code joins that lobby; an unknown one sends the missing-lobby error. Nothing else changes |
| ActionHandlers.AfterRelay | src/actionHandlers.ts:374-548 | definition; properties stated by `RelayOutcome` |
| ActionHandlers.Session.RelayAction | src/actionHandlers.ts:374-548 | The new session state is `AfterRelay` of the old one |
| ActionHandlers.RelayOutcome | src/actionHandlers.ts:374-548 | A forwarded action reaches the enemy once, and without an enemy nothing is sent; nothing else changes |
| ActionHandlers.AfterVersion | src/actionHandlers.ts:297-326 | definition; properties stated by `VersionOutcome` |
| ActionHandlers.Session.VersionAction | src/actionHandlers.ts:297-326 | The new session state is `AfterVersion` of the old one |
| ActionHandlers.VersionOutcome | src/actionHandlers.ts:297-326 | A warning is sent exactly when the client's leading `major.minor.patch` is older than the server's; nothing else changes |
| ActionHandlers.Older | src/actionHandlers.ts:313-319 | definition; properties stated by `OlderIsStrictTotal` |
| ActionHandlers.OlderIsStrictTotal | src/actionHandlers.ts:313-319 | The version comparison is a strict total order on releases |
| ActionHandlers.DigitRun | src/actionHandlers.ts:301 | The leading digit run is all digits and stops at the first non-digit |
| ActionHandlers.LeadingRelease | src/actionHandlers.ts:301-311 | definition; properties stated by `LeadingReleaseOfText`, `ServerVersionRelease` |
| ActionHandlers.LeadingReleaseOfText | src/actionHandlers.ts:301-311 | The version pattern reads back the release from its own text, whatever non-digit suffix follows |
| ActionHandlers.ServerVersionRelease | src/actionHandlers.ts:295-311 | The server's version string reads as release 0.2.12 |
| Connection.Connection.constructor | src/main.ts:113-141 | A new connection greets the client, asks its version and arms both timers, outside retry mode |
| Connection.AfterInitialTimer | src/main.ts:137-141 | definition; properties stated by `QuietAfterData`, `SilenceBounded`, `SilentClientEnded` |
| Connection.Connection.InitialTimerFires | src/main.ts:137-141 | The state after the initial timer is `AfterInitialTimer` of the old one |
| Connection.AfterRetryTimer | src/main.ts:120-134 | definition; properties stated by `RetryIgnoredOutsideRetry`, `SilenceBounded`, `SilentClientEnded` |
| Connection.Connection.RetryTimerFires | src/main.ts:120-134 | The state after the retry timer is `AfterRetryTimer` of the old one |
| Connection.AfterData | src/main.ts:143-152 | definition; properties stated by `AfterDataIs`, `DataResetsWatchdog` |
| Connection.Connection.DataReceived | src/main.ts:143-361 | The state after a chunk of data is `AfterData` of the old one |
| Connection.Dispatched | src/main.ts:151-361 | definition; properties stated by `DispatchedAppend`, `DispatchedStep`, `DroppedAfterEmpty`, `NewlineFramedChunk`, `BlankLineDropsRest` |
| Connection.Connection.HandleRecords | src/main.ts:151-361 | The record loop appends exactly the dispatch of the records up to the first empty one |
| Connection.Connection.HandleMessage | src/main.ts:152-360 | One record either stops the loop (it is empty) or appends its own dispatch |
| Connection.AfterDisconnect | src/main.ts:364-385 | definition; properties stated by `DisconnectLeavesLobby` |
| Connection.Connection.SocketEnded | src/main.ts:364-367 | The state after the socket ends is `AfterDisconnect` of the old one |
| Connection.Connection.SocketFailed | src/main.ts:369-385 | The state after any socket error, reset or not, is `AfterDisconnect` of the old one |
| Connection.HandleRecord | src/main.ts:153-360 | A record yields at most one effect: the parse-failure error exactly when it does not parse. A parsed record runs its handler exactly when its action tag is one of the switch's cases; an unknown tag runs nothing and sends nothing |
| Connection.AfterDataIs | src/main.ts:143-152 | Data leaves retry mode, clears the count, re-arms the initial timer and appends the dispatched records |
| Connection.RetryIgnoredOutsideRetry | src/main.ts:120-124 | Outside retry mode the retry timer's expiry does nothing |
| Connection.DataResetsWatchdog | src/main.ts:143-147 | Data always leaves retry mode, clears the retry count and re-arms the initial timer, and never ends the socket |
| Connection.QuietAfterData | src/main.ts:117-147 | A new connection, and one that has just received data, can send at most four probes before hearing from its client |
| Connection.SilenceBounded | src/main.ts:120-141 | Whatever the order of timer expiries, a silent client is sent at most the probes left, all of them keep-alives |
| Connection.SilentClientEnded | src/main.ts:126-141 | A client silent since its last data is probed four times, then its socket is ended; after two retries it is still open |
| Connection.DisconnectLeavesLobby | src/main.ts:364-385 | End or error removes the client from its lobby once and changes nothing else |
| Connection.DispatchedAppend | src/main.ts:151-152 | Records before the first empty one are dispatched independently, one effect at most each |
| Connection.DispatchedStep | src/main.ts:151-152 | An empty record stops the loop, and a non-empty one adds its own dispatch |
| Connection.DroppedAfterEmpty | src/main.ts:152 | Nothing after an empty record is dispatched |
| Connection.FramedSplit | src/main.ts:149 | Newline-terminated records split into those records plus one empty trailing piece |
| Connection.NewlineFramedChunk | src/main.ts:149-152 | A chunk of newline-terminated non-empty records dispatches every record once, in order |
| Connection.BlankLineDropsRest | src/main.ts:149-152 | A blank line in a chunk drops every record after it |
| Connection.KeptAppend | src/main.ts:82-84 | Dropping missing fields works entry by entry and keeps their order |
| Connection.KeptOne | src/main.ts:83-84 | A field is kept as `key:value` text exactly when its value is present |
| Connection.SerializeAction | src/main.ts:80-86 | definition; properties stated by `SerializeSplits`, `SerializeDecodes`, `KeptAppend`, `KeptOne` |
| Connection.SerializeSplits | src/main.ts:80-86 | Splitting a serialized action on `,` gives back its kept `key:value` pairs, in entry order |
| Connection.Classify | src/main.ts:65-74 | `true`/`false` become a flag holding `value === 'true'`. Otherwise the `score` key becomes `fromString(value)`. Otherwise text that `Number()` reads becomes that number, and other text stays text. A present value is never `undefined` |
| Connection.DecodePart | src/main.ts:64-74 | definition; properties stated by `DecodePartPair` |
| Connection.Assign | src/main.ts:66-74 | `obj[key] = v` binds the key to the value and leaves every other key alone. The key `__proto__` leaves the object unchanged, because the inherited prototype setter ignores the values a part decodes to |
| Connection.Decoded | src/main.ts:61-77 | definition; properties stated by `DecodedThrows`, `DecodedPairs`, `SerializeDecodes`, `EmptyActionDecodes`, `ProtoKeyDropped` |
| Connection.ProtoKeyDropped | src/main.ts:66-74 | A `__proto__:value` part leaves the decoded object as it was |
| Connection.StringToJson | src/main.ts:61-77 | The loop over `,`-separated parts builds the decoded object, or fails where the source throws |
| Connection.DecodedThrows | src/main.ts:63-75 | A part that throws aborts the whole decoding |
| Connection.DecodePartPair | src/main.ts:64-74 | A `key:value` part assigns its classified value to its key |
| Connection.DecodedPairs | src/main.ts:63-75 | Decoding `key:value` parts gives the object assigning each key its last classified value; a `__proto__` field binds nothing |
| Connection.SerializeDecodes | src/main.ts:61-86 | Decoding a serialized action gives back every kept field, classified, except a field named `__proto__` |
| Connection.EmptyActionDecodes | src/main.ts:61-86 | An action with no kept fields serializes to empty text, which decodes to one empty key with no value |
| Connection.ScoreFieldRoundTrip | src/main.ts:71-74 | A rendered score holds no `,` or `:` and decodes back to the same triple |
| Connection.RemoveFirst | src/main.ts:55 | Removing the first occurrence of a character shortens the text by one, and leaves text without it unchanged |
| Connection.NotationParts | src/main.ts:54-56 | `c.f` followed by `e` and `x` splits into the coefficient and exponent, and into whole and fractional digits |
| Connection.BigIntOfDigits | src/main.ts:55-56 | `BigInt` reads a digit string as its value |
| Connection.ScientificToBigInt | src/main.ts:53-58 | definition; properties stated by `ScientificValue`, `NotationParts` |
| Connection.ScientificValue | src/main.ts:53-58 | `c.f` followed by `e` and `x` gives the digits of `c` and `f` times `10^(x - len(f))`, and throws when that power is negative |

## Left out

- Sockets, server setup, `socket.write`, `setNoDelay`, listening and logging are I/O. The connection records sends and lobby removal as effects instead.
- `JSON.parse` and `JSON.stringify` are library calls. The parser is the parameter `parse` of `Connection.DataReceived`, and a parsed record is an opaque `Message`.
- Timer durations and the `setTimeout`/`refresh` mechanics are time. The two timers are events that fire only while armed, and the durations appear only as the constants.
- Exceptions thrown inside a handler after a record parsed are not modelled. The catch at src/main.ts:353-360 is modelled only for parse failures.
- IEEE-754 arithmetic is replaced by exact reals:
  - rounding in `Math.pow` and `Math.log10`;
  - infinities;
  - JavaScript's switch to exponent notation when a number is rendered;
  - `Number()` on hexadecimal, whitespace or exponent text, which the model reads as NaN.
- `InsaneNumber.AddAligned`: `Math.pow` is a parameter `pow10` that is only required to be positive. The sum's value is therefore not tied to ten's actual powers.
- `InsaneNumber.InsaneInt.Balance` is weaker than the source: it runs at most 64 passes of the loop. A `GaveUp` outcome shows only that the loop had not returned after 64 passes. The cases where it never returns are proved separately, for values no pass changes (`FixpointNeverSettles`).
- `InsaneNumber.InsaneInt.Add` and `InsaneNumber.InsaneInt.Div` return `null` where a balance inside them gives up or meets NaN. The source would loop or carry NaN fields instead.
- `ActionHandlers.Session.PlayHandAction` takes a parsed score and a whole hand count. Two cases of src/actionHandlers.ts:167-170 are therefore not modelled:
  - a score text that `Number()` cannot read, which `fromString` keeps as NaN fields; with NaN fields `lessThan` holds in both directions (src/InsaneInt.ts:72-74), so the round-end comparison at src/actionHandlers.ts:182-220 behaves differently;
  - a `handsLeft` that `Number()` turns into NaN or a fraction.
- `Connection.ScientificToBigInt` reads only plain decimal digits through `Text.ParseBigInt`. `BigInt()` also accepts surrounding whitespace and the `0x`, `0o` and `0b` prefixes; the model reads those texts as a failure.
- A parsed text with a non-whole `#` count, or one that is NaN, gives `None`. The source would keep a fractional or NaN wrap count.
- Lobby.js, Client.js, GameMode.js and utils.js are not part of this model.
  - `getEnemy` follows tests/lobby.test.ts:68-79.
  - `loseLife` is assumed to subtract one life with no floor at 0.
  - `setPlayersLives` sets both players.
  - `broadcastAction`, `resetPlayers` and `join` are outbox entries.
  - The mode's default lives and `generateSeed` are parameters.
  - A client in a lobby is assumed to sit in one of its two seats.
- The lobby options are kept as values already read. `starting_lives` is an optional integer, the result of `Number.parseInt`; the parsing itself, and a NaN result, are not modelled.
- The trivial handlers have no rule beyond a field write or a rebroadcast, so they are not modelled:
  - `username`, `setLocation`, `setAnte`, `syncClient`, `newRound`;
  - `unreadyBlind`, `readyLobby`, `unreadyLobby`;
  - `lobbyInfo`, `gameInfo`, `lobbyOptions`;
  - the reply to `keepAlive`.
- `createLobby` and `leaveLobby` live in Lobby.js, which is not part of this model. The connection records only that `leaveLobby` is called.
- `skip` (src/actionHandlers.ts:358-372) records the skip count and sends the enemy the same "enemyInfo" as a played hand. It has no rule of its own and is not modelled separately.
- The forwarders at src/actionHandlers.ts:374-548 share one generic relay (`RelayAction`). Their payloads are opaque text.

## Findings

| source | as written | input that shows it | evidently intended | confidence | as-written member | corrected member |
|---|---|---|---|---|---|---|
| src/InsaneInt.ts:85, 105-140 | `isBalanced` rejects an exponent below 1000000 with more than one wrap, but no rewrite rule changes such a value, so `balance()` loops forever | the triple `(2, 5, 50000)` | `balance()` returns on every input instead of hanging the server, reporting a value it cannot bring to canonical form | not executed | InsaneNumber.WrapGapStuck | InsaneNumber.InsaneInt.Balance |
| src/InsaneInt.ts:122-127 | the cap at line 124 turns the coefficient rule into a no-op when the exponent is 1, so a coefficient below 1 is never fixed | `fromString("0.5e1")`, the triple `(0, 0.5, 1)` | the coefficient is brought to at least 1, or the value is reported as unbalanceable | not executed | InsaneNumber.SmallCoefficientStuck | InsaneNumber.InsaneInt.Balance |
| src/InsaneInt.ts:80, 135 | a wrap count with a zero exponent is rejected, but the only rule that lowers wraps requires a non-zero exponent, so `balance()` loops forever | `fromString("e5")`, the triple `(1, 5, 0)` | `balance()` returns on every input instead of hanging the server, reporting a value it cannot bring to canonical form | not executed | InsaneNumber.WrapsWithoutExponentStuck | InsaneNumber.InsaneInt.Balance |
| src/InsaneInt.ts:212-217 | dividing a number with wraps by itself builds `(wraps, 1, 0)`, which is unbalanced and stuck, so `div` never returns | `x.div(x)` with `x = fromString("e5e100")` | `div` returns instead of hanging the server, reporting that it has no balanced quotient | not executed | InsaneNumber.DivSelfStuck | InsaneNumber.InsaneInt.Div |

The corrected members give only the minimal correction: they return. Each
runs at most 64 passes of the loop and reports `GaveUp` (in `Div`, `null`)
when the value is not yet canonical. The 64-pass cap is an abstraction, not a
claim about which bound the authors meant. `InsaneNumber.BalanceRunSound`
proves that whatever they report as balanced satisfies `isBalanced`, and the
as-written lemmas prove that on the listed inputs they report `GaveUp` or
`null` for every cap. Which rewrite rule the authors meant to add, so that
these values would become canonical, is not evident from the code. The model
does not guess one, so it does not produce a balanced value for these
inputs.
