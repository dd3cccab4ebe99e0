# chess98 live-game core in Dafny

This project models the server side of chess98's live games and the small
pure helpers of its web client. Everything is written as pure functions over
immutable data.

- **Sessions and records.** The `ActiveGame` session record and its defaults
  are modelled, together with the `games` row, the game result and
  termination enums, and the player `profiles` row.
- **Clock and time controls.** The clock engine covers the tick, the
  increment and the timeout peek. The `"M+I"` time-control parser includes
  Python's own `int()` and `strip()` rules.
- **Live-game handlers.** Each handler invocation is one step from a store to
  a store. The store holds the session cache, the `games` table and the game
  connection registry. A step also yields the messages it sent and how the
  invocation ended: normally, with `InvalidMove`, with an uncaught exception,
  or with a close code. The handlers are:
  - the move service, with its guard chain, the clock tick, the state update
    and the end-of-game classification;
  - resign, draw offer, draw accept and chat;
  - the gameplay websocket: admission, reconnect, `game_start`, message
    dispatch, `check_timeout`, and pausing on disconnect;
  - the session cache, with its rebuild of a session from the `games` row.
- **Connection registries.** Both are modelled. A set of "failing" sockets
  drives the branches that run when a send fails.
- **Game service and matchmaking.**
  - The game service covers the per-player view of a game, pagination,
    game creation (join order in the older version, a shuffle in the newer
    one) and the `handle_game_over` finalizer, which updates ratings and
    counters.
  - Matchmaking covers the per-time-control FIFO queues: the scan for a
    live opponent, pairing, notifications, and `cancel_search`.
- **Puzzles.** The puzzle solve flow: a rating changes only for the active
  puzzle.
- **Frontend helpers.**
  - form validators;
  - the `mm:ss` clock display and the "minutes ago" label;
  - the game card's relative time, PGN badge and title colour;
  - the game-to-summary conversion;
  - `:param` path templating (one definition serves both clients' identical
    copies);
  - the board-theme lookup.

Chess rules are the `Moves.Rules` oracle. Its fields say whether a string is
UCI syntax, whether a move is legal, the position and SAN after a move, and
the game-over flags. The Elo functions are parameters. The wall clock is a
`now` parameter: microseconds on the server, milliseconds in the browser.
Date parsing in the browser is a parameter too. Identities and sockets are
natural numbers, and a UUID's text form is its decimal rendering.

These behaviours look unintended, and are modelled as written:
- Reconnecting takes the user off `disconnected_players` but leaves `paused`
  set (`Gameplay.ReconnectKeepsPaused`). So after a drop and a return every
  move is refused as paused (`Gameplay.DropAndReturnStaysPaused`), and a
  paused game with nobody away is reachable.
- When the scan's first live candidate is the player themself, the scan does
  not go on. That entry is dropped, the player is appended, and no game is
  made (`Matchmaking.FindMatch`).
- `handle_draw_accept` requires no pending offer (`UserActions.DrawAcceptWithoutOffer`).
- `draw_offer_by` is never cleared (`UserActions.OfferSurvivesAccept`).
- Checkmate and the automatic draws do not change the cached session's
  `status` (`Moves.MateLeavesSessionActive`).
- No terminal path calls `handle_game_over`. The move, resign, draw and
  timeout paths write the row without rating or counter updates, and both
  behaviours are modelled as written.

## Model

| member | source | states |
|---|---|---|
| Sessions.Opponent | chess98_api/app/schemas/active_game.py:7-9 | There are exactly two colours, and each colour's opponent is the other one. |
| Sessions.NewActiveGame | chess98_api/app/schemas/active_game.py:11-40 | A session built from its required fields keeps them. Every optional field takes its schema default: no timestamp, empty move lists, no draw offer, nobody disconnected, not paused, status "active". |
| Clock.ElapsedSeconds | app/services/timer.py:18-19 | `int(elapsed)` is whole seconds truncated toward zero. Forward in time, e seconds satisfy e*1s <= now-since < (e+1)*1s. Backward in time, the value is never positive. |
| Clock.UpdateTime | app/services/timer.py:8-30 | Before the first move only the timestamp is set, and there is no loser. After it, the side to move is charged the elapsed whole seconds, the other clock and every other field are unchanged, and the side to move loses exactly when its time is then <= 0. |
| Clock.ApplyIncrement | app/services/timer.py:32-36 | The increment goes to the colour in `turn`. Nothing else changes. |
| Clock.TickThenIncrementBalances | app/services/timer.py:18-36 | A move's clock work balances: together the two clocks lose exactly the elapsed whole seconds and gain exactly the increment, all on the mover's side. With no increment the increment step changes nothing. |
| Clock.GetTimeoutLoser | app/services/timer.py:38-56 | There is no loser before the first move. Otherwise the side to move is named exactly when its time minus the elapsed seconds is <= 0. The result is a colour, so the session cannot change. |
| Clock.PeekAgreesWithTick | app/services/timer.py:46-56 | For the same instant the peek names exactly the loser the tick reports. |
| Clock.TickSparesWaitingSide | app/services/timer.py:21-28 | The colour not to move keeps its time through a tick. |
| Clock.TickNeverAddsTime | app/services/timer.py:18-28 | With time running forward a tick never adds time, and it takes less than one second more than the exact elapsed time. |
| TimeControls.WithoutUnderscores | chess98_api/app/utils/time.py:8-9 | The single underscores `int()` allows between digits are dropped, and only digits remain. |
| TimeControls.PyInt | chess98_api/app/utils/time.py:8-9 | `int()` succeeds exactly on a stripped optional sign followed by digit groups, and gives the value they denote. Anything else is a ValueError. |
| TimeControls.PyIntOfRendering | chess98_api/app/utils/time.py:8-9 | `int()` reads back the decimal rendering of every natural number. |
| TimeControls.ParseTimeControl | chess98_api/app/utils/time.py:1-12 | Anything that does not strip to exactly one '+' fails. The parse succeeds exactly when both parts are integer literals once stripped, as Python's `int()` reads them (so "5 + 3", "05+3", "-5+3" and "1_0+0" are accepted). On success the result is (minutes*60, increment). |
| TimeControls.ParseRendered | chess98_api/app/utils/time.py:7-10 | "M+I" written in decimal parses to (M*60, I). |
| TimeControls.StripDetermined | chess98_api/app/utils/time.py:7 | `strip()` keeps exactly the slice between the leading and trailing whitespace. |
| TimeControls.StripPadded | chess98_api/app/utils/time.py:7 | Whitespace added around a string does not change what it strips to. |
| TimeControls.ParseIgnoresSurroundingSpace | chess98_api/app/utils/time.py:7 | Surrounding whitespace does not change how a time control parses. |
| TimeControls.AllTimeControlsParse | chess98_api/app/constants/time_control.py:4-15 | Every `TimeControl` value parses, to 60..1800 initial seconds and an increment of 0..30. |
| TimeControls.EnumParts | chess98_api/app/constants/time_control.py:4-15 | Each enum value is "M+I" with 1 <= M <= 30 and I <= 30. |
| Text.Strip | chess98_api/app/utils/time.py:7 | `str.strip()` returns a slice of the input with no whitespace at either end. |
| Text.StripEmptyIffBlank | chess98_api/app/services/user_actions.py:94-95 | A string strips to "" exactly when it is all whitespace. |
| Text.SplitOn | chess98_api/app/utils/time.py:7 | `split(sep)` gives one more piece than there are separators. No piece contains the separator, and joining the pieces gives back the input. |
| Text.SplitJoin | frontend_chess98/models/game.ts:63 | Splitting a join of separator-free pieces gives the pieces back. |
| Text.IndexOf | frontend_chess98/constants/endpoints.ts:27 | The result is the first position at or after `from` where the pattern occurs, or None exactly when there is none. |
| Text.NatToString | chess98_api/app/cache/game.py:21-22 | A natural number renders as a non-empty run of decimal digits. |
| Text.NatToStringRoundTrip | chess98_api/app/cache/game.py:21-22 | Reading the digits of a rendering back gives the number. |
| Text.TruncDiv | app/services/timer.py:19-22 | The quotient is rounded toward zero, as in `int(x / b)`. |
| Text.TruncRem | frontend_chess98/utils/timeFormats.ts:14 | JavaScript's `%` takes the sign of the dividend, with a == trunc(a/b)*b + r. |
| Text.FloorDiv | chess98_api/app/services/game.py:120 | Python's `//` rounds toward negative infinity, and a zero divisor raises. |
| Text.IntToString | frontend_chess98/utils/timeFormats.ts:15-17 | `toString()` gives a minus sign and then the magnitude's digits. |
| Text.PadStart | frontend_chess98/utils/timeFormats.ts:15-17 | `padStart` fills on the left up to the width, keeps the string as the suffix and never truncates. |
| Text.ReplaceFirst | frontend_chess98/constants/endpoints.ts:27 | `replace` with a string pattern replaces only the first occurrence, and leaves a string without one unchanged. |
| Text.JsLength | frontend_chess98/utils/validation.ts:16 | `.length` counts UTF-16 code units: the character count for BMP text, and at most twice it. |
| Records.LossFor | chess98_api/app/services/move.py:126-128 | A white loser gives black_win and a black loser gives white_win; never a draw. |
| Records.WinFor | chess98_api/app/services/move.py:84-87 | A colour's win is its opponent's loss. |
| Records.Pgn | chess98_api/app/services/move.py:140 | No moves give an empty pgn. A non-empty list of single-line SAN moves, joined by newlines, splits back into the same list. |
| Records.CompletedRow | chess98_api/app/services/user_actions.py:32-39 | The finished row has status completed, the result, the termination, `final_fen`, the newline-joined pgn and the end time. Every other column is as it was. |
| Records.FinalizeRow | chess98_api/app/services/move.py:135-142 | The row is completed when it exists. Fetching a missing row gives None, and the attribute write on it raises. |
| Records.ProfileOf | chess98_api/app/services/game.py:168-169 | A profile lookup returns the stored profile, or fails with HTTP 404 when there is none. |
| SessionCache.KeyInjective | chess98_api/app/cache/game.py:21-22 | Distinct games never share an "active_game:<id>" key. |
| SessionCache.Reconstruct | chess98_api/app/cache/game.py:47-65 | The rebuilt session has white to move from the stored initial position and both clocks at the parsed initial time. Its ids, ratings and category come from the row, and it takes the defaults. A parse error propagates. |
| SessionCache.GetActiveGame | chess98_api/app/cache/game.py:32-68 | A hit returns the cached session unchanged. A miss with no row gives None. A miss with a row gives the rebuilt session and writes it back under its key. No other key changes. |
| SessionCache.SaveActiveGame | chess98_api/app/cache/game.py:70-71 | The session is stored under its own game's key, and no other key changes. |
| SessionCache.DeleteActiveGame | chess98_api/app/cache/game.py:73-74 | Only that game's key is removed. |
| SessionCache.SaveThenGet | chess98_api/app/cache/game.py:32-71 | Getting a game right after saving it returns the saved session, whatever the database holds. |
| SessionCache.GetIsStable | chess98_api/app/cache/game.py:32-68 | A second lookup returns what the first one did and writes nothing. |
| SessionCache.DeleteSparesOtherGames | chess98_api/app/cache/game.py:73-74 | Deleting one game does not change what a lookup of any other game returns. |
| GameRegistry.Get | chess98_api/app/ws/manager/game.py:24-25 | The result is the socket registered for (game, user), or None. |
| GameRegistry.Connect | chess98_api/app/ws/manager/game.py:11-12 | (game, user) now maps to the new socket (the last connection wins). Every other entry is unchanged, and no empty bucket appears. |
| GameRegistry.Disconnect | chess98_api/app/ws/manager/game.py:15-22 | Only the (game, user) entry is removed. A missing entry is a no-op, and an emptied game is dropped, so no empty bucket is ever stored. |
| GameRegistry.DisconnectIdempotent | chess98_api/app/ws/manager/game.py:15-22 | Disconnecting twice is the same as disconnecting once. |
| GameRegistry.SendToUser | chess98_api/app/ws/manager/game.py:27-37 | An unregistered user gets nothing. Otherwise the user's socket gets the message, or the user is disconnected when the send fails. |
| GameRegistry.Broadcast | chess98_api/app/ws/manager/game.py:39-51 | Every participant registered at call time with a working socket is reached. Exactly the failed ones are disconnected, and nothing else changes. |
| GameRegistry.DisconnectEachLookup | chess98_api/app/ws/manager/game.py:50-51 | Disconnecting a list of users one by one removes exactly those users' entries for the game. |
| GameRegistry.BroadcastDisconnectsFailedInTurn | chess98_api/app/ws/manager/game.py:39-51 | The broadcast's registry is what the source's second loop produces by calling `disconnect` for each failed participant in turn. |
| MatchRegistry.Get | app/ws/manager/matchmaking.py:18-19 | The result is the user's registered socket, or None. |
| MatchRegistry.Connect | app/ws/manager/matchmaking.py:10-12 | The user's entry is overwritten, and other users are unchanged. |
| MatchRegistry.Disconnect | app/ws/manager/matchmaking.py:14-16 | The user's entry is removed. Other users are unchanged, and an absent user is a no-op. |
| MatchRegistry.DisconnectIdempotent | app/ws/manager/matchmaking.py:14-16 | Disconnecting twice is the same as disconnecting once. |
| MatchRegistry.SendToUser | app/ws/manager/matchmaking.py:21-31 | A user without a connection gets nothing. A failed send unregisters the user. Otherwise the message reaches the user's socket. |
| Live.Save | chess98_api/app/services/move.py:60 | Saving stores the session under its game, touches no other game's session, the table or the registry, and keeps every key matching its content. |
| Live.Broadcast | chess98_api/app/ws/manager/game.py:39-51 | A handler's broadcast sends one message to the live sockets and changes only the registry. |
| Live.Lookup | chess98_api/app/cache/game.py:32-68 | The lookup a handler starts with returns the cached session when there is one. A rebuilt session is cached for that game only. None means there is no row. The session found belongs to the game asked for. |
| Live.Finish | chess98_api/app/services/user_actions.py:28-46 | The session is stored with the termination's name as its status. The row records the end with the given result and termination, and both players get `game_over`. A missing row raises with nothing sent. |
| Live.Conclude | chess98_api/app/services/move.py:135-149 | The row write and `game_over` broadcast leave the cache alone. A missing row raises before anything is sent. |
| Moves.EndReason | chess98_api/app/services/move.py:84-103 | The end reason is the first one the position reports in the order checkmate, stalemate, insufficient material, threefold, fifty-move. Checkmate is won by the colour that just moved, and every other reason is a draw. |
| Moves.EndReasonPriority | chess98_api/app/services/move.py:84-103 | Once a higher-priority reason holds, lower-priority flags cannot change the outcome. |
| Moves.Refusal | chess98_api/app/services/move.py:16-38 | A move may be played exactly when the session is active and not paused, the user plays the colour to move, and the move parses and is legal. Otherwise the first failing guard gives the reason, in source order. |
| Moves.Play | chess98_api/app/services/move.py:41-58 | An accepted move charges the mover, then gives the mover the increment. The position and SAN come from the rules, the timestamp becomes now and the turn flips. Each move list grows by exactly the move, and nothing else changes. |
| Moves.PlayKeepsInStep | chess98_api/app/services/move.py:52-58 | The two move lists stay the same length, and the turn follows their parity. |
| Moves.HandleTimeoutLoss | chess98_api/app/services/move.py:125-149 | The session gets status "timeout". The row gets the loss for that colour with termination timeout, and both players are told. |
| Moves.CheckGameEnd | chess98_api/app/services/move.py:74-123 | A position that is not over changes nothing. A game-over position completes the row with the prioritized reason and broadcasts it. A game-over position without a known reason writes null result and termination, then raises. The cached session is never touched. |
| Moves.RecordEnd | chess98_api/app/services/move.py:106-121 | The row is written before the message, so a missing reason raises after the row write with nothing sent. |
| Moves.PlayAndAnnounce | chess98_api/app/services/move.py:47-72 | The played session is cached, and the first message sent is `move_made` with the new position, turn and both clocks. |
| Moves.Advance | chess98_api/app/services/move.py:41-44 | When the tick reports a loser the game ends by timeout with that colour losing. Otherwise the move is played. |
| Moves.HandleMove | chess98_api/app/services/move.py:15-72 | A missing session or a failing guard is refused with no message, and only the lookup's own cache write persists. A move that passes goes to the clock tick and then to playing. |
| Moves.TimeoutDropsMove | chess98_api/app/services/move.py:41-44 | A move that runs the clock out is not applied: position, turn and both move lists are unchanged, and the status is "timeout". |
| Moves.FinishedGameRefusesMoves | chess98_api/app/services/move.py:16-18 | Once the cached session is not "active", every move is refused and nothing changes. |
| Moves.PausedGameRefusesMoves | chess98_api/app/services/move.py:20-21 | A paused active session refuses every move as paused, and nothing changes. |
| Moves.MateLeavesSessionActive | chess98_api/app/services/move.py:74-123 | A mating move completes the row but leaves the cached session "active". |
| UserActions.OfferRecipient | chess98_api/app/services/user_actions.py:58-59 | The opponent told of an offer is white when black offers, and black for anyone else. |
| UserActions.HandleResign | chess98_api/app/services/user_actions.py:12-46 | A missing or finished session is a no-op. Otherwise white resigning gives black_win and anyone else gives white_win, with status "resignation", the row completed with `final_fen` and pgn, and both players told. |
| UserActions.HandleDrawOffer | chess98_api/app/services/user_actions.py:48-64 | The offerer is recorded, and only the opponent's socket is sent the offer, when the opponent is connected. A failing direct send raises. A missing or finished session is a no-op. |
| UserActions.HandleDrawAccept | chess98_api/app/services/user_actions.py:67-89 | An active game ends as a draw by agreement, with the row completed and both players told. A missing or finished session is a no-op. |
| UserActions.HandleChatMessage | chess98_api/app/services/user_actions.py:92-105 | A whitespace-only message is dropped with nothing changed. Otherwise the stripped, non-empty text is broadcast. |
| UserActions.DrawAcceptWithoutOffer | chess98_api/app/services/user_actions.py:67-89 | Accepting a draw nobody offered still ends the game as a draw. |
| UserActions.OfferSurvivesAccept | chess98_api/app/services/user_actions.py:54-89 | After an accepted draw the session still names whoever offered. |
| UserActions.FinishedGameIgnoresActions | chess98_api/app/services/user_actions.py:15-16 | Resign, draw offer and draw accept change nothing once the session is not "active". |
| Gameplay.RemoveFirst | chess98_api/app/ws/gameplay.py:35-37 | `list.remove` drops exactly the first occurrence, keeping the order of the rest. |
| Gameplay.Rejoin | chess98_api/app/ws/gameplay.py:34-55 | A user who is not listed as away changes nothing. A listed user is removed from the list once, `paused` is not touched, and the registry is unchanged. The user is told `reconnected` first. A connected opponent with a working socket then gets `opponent_reconnected`. A failing opponent socket raises after the first message, and with no opponent connected only `reconnected` goes out. |
| Gameplay.Announce | chess98_api/app/ws/gameplay.py:58-72 | `game_start` is broadcast, with the clocks from the connecting user's side, exactly when both colours are registered. Otherwise only this socket gets `waiting_for_opponent`. |
| Gameplay.Greet | chess98_api/app/ws/gameplay.py:34-72 | After the reconnect branch, the last message is `game_start` exactly when both colours are registered. |
| Gameplay.Open | chess98_api/app/ws/gameplay.py:12-72 | An unknown game is closed with 4004 and a non-participant with 4003, with nothing registered. A participant on a working socket stays registered on it, and the open ends with `game_start` exactly when both colours are connected. |
| Gameplay.Admit | chess98_api/app/ws/gameplay.py:31-72 | Registration happens before the start check, so the connecting user counts as connected. |
| Gameplay.GreetFound | chess98_api/app/ws/gameplay.py:34-35 | A missing session raises on `disconnected_players`, and a found one is greeted. |
| Gameplay.SubmitMove | chess98_api/app/ws/gameplay.py:89-104 | A failed lookup or a missing session raises. A move while anyone is away is refused on this socket, and only the lookup's write-back is kept. Otherwise the move service decides, and its `InvalidMove` becomes an error message on this socket. |
| Gameplay.Sweep | chess98_api/app/ws/gameplay.py:106-119 | Only an active game with nobody away, whose side to move has run out of time, is ended. It ends as that side's timeout loss: the session gets status "timeout" and the row is completed. Every other case sends nothing and keeps only the lookup's write-back. |
| Gameplay.Receive | chess98_api/app/ws/gameplay.py:74-140 | A move without `uci` and an empty chat get an error, and so does a move while anyone is away. `InvalidMove` becomes an error message. `check_timeout` finalizes only an active game with nobody away whose peek names a loser. |
| Gameplay.MarkAway | chess98_api/app/ws/gameplay.py:150-151 | The user is listed as away exactly once, and other entries keep their multiplicity. |
| Gameplay.Close | chess98_api/app/ws/gameplay.py:142-153 | On disconnect the registry entry is removed, and the session is saved paused with the user listed as away. |
| Gameplay.PauseFound | chess98_api/app/ws/gameplay.py:148-153 | A found session is saved paused with the user marked away. A missing one raises. |
| Gameplay.ReconnectKeepsPaused | chess98_api/app/ws/gameplay.py:34-37 | Reconnecting removes the user from the away list and leaves `paused` as it was. |
| Gameplay.CloseFixpoint | chess98_api/app/ws/gameplay.py:142-153 | An unregistered user already away in a paused session leaves the store unchanged on disconnect. |
| Gameplay.CloseIdempotent | chess98_api/app/ws/gameplay.py:142-153 | A second drop changes nothing more. |
| Gameplay.DropAndReturnStaysPaused | chess98_api/app/ws/gameplay.py:34-37 | A drop followed by a return restores the away list but leaves the game paused, so every later move is refused as paused. |
| GameService.MapResult | chess98_api/app/services/game.py:28-40 | The result is "draw" exactly for a draw, "win" exactly when that colour won, and "loss" exactly when it lost. A null result is a ValueError. |
| GameService.MapResultOpposite | chess98_api/app/services/game.py:28-40 | The two sides see opposite outcomes of a decisive game, and both see a draw as a draw. |
| GameService.GetRatingChange | chess98_api/app/services/game.py:42-46 | The stored change for that colour, or 0 when null. |
| GameService.Offset | chess98_api/app/services/game.py:65 | Offset plus page size is page*size, and the offset is non-negative for valid pages. |
| GameService.TotalPages | chess98_api/app/services/game.py:120 | The page count is defined exactly when the page size is non-zero. |
| GameService.TotalPagesIsCeiling | chess98_api/app/services/game.py:120 | For a positive size the count is the ceiling: the pages hold every game, the last page is non-empty, and there are no pages without games. |
| GameService.NewRow | chess98_api/app/services/game.py:140-150 | A new row is active from the start position with the given ids and ratings. It has no result, termination, end time or rating change. |
| GameService.JoinOrder | app/services/game.py:45 | The pair is a permutation of the two players, and the earlier `joined_at` plays white. A tie keeps the argument order. |
| GameService.CreateGameJoinOrder | app/services/game.py:40-77 | The row is committed in every case, with the earlier joiner as white, ratings 1200 and no category. The create succeeds exactly when white's time control parses. On success the game's id is returned, and exactly one fresh session is cached: white to move from the start, both clocks at the initial time, and the defaults. On failure the error escapes, and the row stays with the cache untouched. |
| GameService.JoinOrderSessionIsRebuild | app/services/game.py:40-77 | The cached session is exactly what a cache miss would rebuild from the committed row. After a failed create nothing is cached, so every later lookup of that game raises the same parse error. |
| GameService.RatingOr | chess98_api/app/services/game.py:173-174 | The result is a profile's rating in the category, or 1200 when it has none. |
| GameService.CreateGameShuffled | chess98_api/app/services/game.py:159-209 | Colours are a permutation of the queued pair. Each rating snapshot is that player's rating in white's category or 1200. Only the row is written, and a missing profile is HTTP 404. |
| GameService.ShuffledGameRebuilds | chess98_api/app/services/game.py:187-209 | For two players with profiles and an accepted time control, the session the newer version does not cache is rebuilt from its row with that row's rating snapshots and category. |
| GameService.Tally | chess98_api/app/services/game.py:239-250 | One more game in total, and exactly one more win, loss or draw, matching the outcome. |
| GameService.Credit | chess98_api/app/services/game.py:229-236 | Only the category's rating moves, by the delta. A missing category is a KeyError. |
| GameService.UpdateProfiles | chess98_api/app/services/game.py:227-250 | Between distinct players each profile gets its own delta and outcome, and no other profile changes. A missing category fails. |
| GameService.TallyResult | chess98_api/app/services/game.py:242-250 | The win, loss and draw counters move for both players, consistent with the result. |
| GameService.SelfGameDoublesUp | chess98_api/app/services/game.py:229-250 | When one user holds both colours, both deltas and both tallies land on that profile. |
| GameService.HandleGameOver | chess98_api/app/services/game.py:211-270 | The Elo deltas move both profiles' category ratings and counters. The row is completed with both deltas, and both players are told. Any failure (404, KeyError, missing row) changes nothing. |
| GameService.SettleWith | chess98_api/app/services/game.py:224-270 | The same as `GameService.HandleGameOver`, once the two deltas are known. |
| GameService.RatedEnd | chess98_api/app/services/game.py:253-270 | The completed row also carries both rating changes, the cache is untouched, and `game_over` is broadcast. |
| GameService.GameOverCounters | chess98_api/app/services/game.py:239-250 | Each distinct player's total grows by 1 with exactly one of win, loss or draw. A win goes with the other's loss. Only the category rating moves. |
| Matchmaking.QueueKey | app/services/matchmaking.py:16 | The queue key is "queue:" followed by the time control. |
| Matchmaking.Scan | app/services/matchmaking.py:32-40 | The scan takes the first candidate with a live connection. Every earlier candidate had none and is dropped, and what lay behind the chosen one is kept. |
| Matchmaking.NotifyPlayers | app/services/matchmaking.py:64-78 | Every listed user ends unregistered, even when the send fails, and other users are untouched. Every listed user connected on a working socket gets `match_found`. Every notice goes to the socket of a listed, connected user, never to a failing one. |
| Matchmaking.NotifiedExactlyOnce | app/services/matchmaking.py:64-78 | When no two users share a socket, every listed user connected on a working socket gets exactly one `match_found`, however often the user is listed. |
| Matchmaking.NotifyPair | app/services/matchmaking.py:64-78 | Two connected players with working sockets are each told once, in order. |
| Matchmaking.FindMatch | app/services/matchmaking.py:15-61 | With no live candidate the queue becomes just the player. A self-match drops the candidate and appends the player. For a different candidate, a failed create raises with the committed row kept, the queue and registry unchanged, and nothing sent. A successful one keeps the rest of the queue and returns the id. It sends `match_found` to each of the two players on a working socket, unregisters both, and leaves every other registration as it was. |
| Matchmaking.ScanLeavesSuffix | app/services/matchmaking.py:33-40 | A scan only removes from the front, and the remaining entries keep their order. |
| FindGame.Without | chess98_api/app/ws/find_game.py:67-70 | Filtering removes every entry of the user and keeps every other entry with its multiplicity. |
| FindGame.WithoutAppend | chess98_api/app/ws/find_game.py:67-70 | Filtering splits over concatenation, so the kept entries stay in their original order. |
| FindGame.WithoutAbsent | chess98_api/app/ws/find_game.py:67-72 | A queue with no entry of the user is unchanged. |
| FindGame.WithoutIdempotent | chess98_api/app/ws/find_game.py:67-72 | Cancelling twice is the same as cancelling once. |
| FindGame.Open | chess98_api/app/ws/find_game.py:22-23 | Opening registers the socket as the user's. |
| FindGame.Receive | chess98_api/app/ws/find_game.py:25-74 | A missing or invalid time control gets an error, a close and unregistration, with no queue touched. A valid one queues the player at 1200 and answers `waiting_for_match` only without a game. `cancel_search` filters the named queue (default "blitz_5min"), unregisters and closes. |
| FindGame.Drop | chess98_api/app/ws/find_game.py:76-77 | A transport drop unregisters only that user. |
| FindGame.DefaultCancelMissesEveryQueue | chess98_api/app/ws/find_game.py:62-64 | The default "blitz_5min" is not a time control `find_game` accepts. |
| Puzzles.GetPuzzleById | chess98_api/app/services/puzzle.py:15-20 | The puzzle with that id, or HTTP 404 exactly when there is none. |
| Puzzles.SumTimesPlayed | chess98_api/app/services/puzzle.py:33-38 | That puzzle's play count goes up by one, and every other row is unchanged. |
| Puzzles.Window | chess98_api/app/services/puzzle.py:23-30 | The result is exactly the puzzles rated within 100 of the target. |
| Puzzles.PuzzleByRating | chess98_api/app/services/puzzle.py:23-30 | The result is a puzzle within 100 of the rating, or None exactly when there is none. |
| Puzzles.RatedSolve | chess98_api/app/services/puzzle.py:49-71 | The new rating is the old one plus the delta and is stored. The solve is recorded, and the next active puzzle is near the new rating when one exists. |
| Puzzles.SolvePuzzleAndGetNext | chess98_api/app/services/puzzle.py:40-86 | An unknown id (404), or an active puzzle without a rating, changes nothing. Otherwise the count goes up and one solve is recorded. `rating_updated` is whether the puzzle was the active one, and a non-active solve has delta 0 with the profile unchanged. |
| Puzzles.ActiveSolveMovesRating | chess98_api/app/services/puzzle.py:47-71 | Solving the active puzzle moves the rating by the Elo delta and makes a nearby puzzle active, or keeps the active one when none is near. |
| Puzzles.ActiveSolveIsRated | chess98_api/app/services/puzzle.py:47-53 | Solving the active puzzle takes the rated branch with the Elo delta for the puzzle's rating. |
| Puzzles.InactiveSolvesAreUnrated | chess98_api/app/services/puzzle.py:47-76 | Repeated solves of a non-active puzzle never touch the profile, but each is recorded. |
| Validation.EmailShapedIffPattern | frontend_chess98/utils/validation.ts:4-5 | The direct email check accepts exactly the strings the regular expression matches. |
| Validation.PatternIsShaped | frontend_chess98/utils/validation.ts:4-5 | Every string the pattern matches passes the direct check. |
| Validation.ShapedIsPattern | frontend_chess98/utils/validation.ts:4-5 | Every string passing the direct check matches the pattern. |
| Validation.PatternShape | frontend_chess98/utils/validation.ts:4-5 | A string the regular expression matches has at least five characters and an '@', does not start or end with '@', and contains no whitespace. |
| Validation.ValidateEmail | frontend_chess98/utils/validation.ts:1-10 | "" is required. Otherwise the result is null exactly when the pattern matches, and an invalid-address message when it does not. |
| Validation.ValidatePassword | frontend_chess98/utils/validation.ts:13-30 | The result is null exactly for 8 or more code units. "" is required, and a shorter password is too short. |
| Validation.PasswordCharactersIgnored | frontend_chess98/utils/validation.ts:20-27 | Passwords of equal length get the same verdict, because the character-class rule is commented out. |
| Validation.ValidateConfirmPassword | frontend_chess98/utils/validation.ts:54-62 | The result is null exactly when the confirmation is non-empty and equal. Otherwise it is "required", then "mismatch". |
| Validation.ValidateUsername | frontend_chess98/utils/validation.ts:33-51 | The result is null exactly for 3..20 characters of [A-Za-z0-9_]. Otherwise the first failing check's message, in the order empty, short, long, charset. |
| Validation.ValidateDisplayName | frontend_chess98/utils/validation.ts:65-77 | The result is null exactly for "" or 2..30 code units. Otherwise it is the too-short or too-long message. |
| TimeFormats.Pad2Value | frontend_chess98/utils/timeFormats.ts:15-17 | A padded natural number reads back as itself, and is exactly two characters below 100. |
| TimeFormats.FormatTime | frontend_chess98/utils/timeFormats.ts:12-18 | For a non-negative count the display is the whole minutes and the remaining seconds, each padded to two places, around ':'. |
| TimeFormats.FormatTimeReadsBack | frontend_chess98/utils/timeFormats.ts:12-18 | For s >= 0 the display reads back as minutes*60 + seconds == s, with the seconds 00..59. |
| TimeFormats.FormatTimeFiveChars | frontend_chess98/utils/timeFormats.ts:13-17 | For 0 <= s < 6000 the display is exactly "mm:ss". |
| TimeFormats.FormatTimeNegative | frontend_chess98/utils/timeFormats.ts:12-18 | For every negative count the minutes are floored and negative, and the seconds field keeps the count's sign (-59..0). Unless the count is a whole number of minutes, the two fields add up to one minute less than the count, so -61 shows as "-2:-1". |
| TimeFormats.GetMinutesAgo | frontend_chess98/utils/timeFormats.ts:20-30 | No time gives "". Under a full minute gives "just now". Otherwise the floored minutes n give "n minute(s) ago", with the 's' only past one. An invalid date gives "NaN minute ago". |
| GameCard.NestedFloor | frontend_chess98/components/game/game-card.tsx:29-37 | Flooring minutes, then hours, then days, equals flooring the milliseconds directly. |
| GameCard.FormatRelativeTime | frontend_chess98/components/game/game-card.tsx:25-39 | Under a minute gives "Just now". Below an hour gives "N min ago", below a day "N hr ago", and otherwise "N day(s) ago", with the 's' iff N > 1. |
| GameCard.GetPgnResult | frontend_chess98/components/game/game-card.tsx:42-58 | "½-½" exactly for "draw", "1-0" exactly for "white_win", and "0-1" for every other string. |
| GameCard.PgnResultShowsScore | frontend_chess98/components/game/game-card.tsx:42-58 | The badge of every stored result is that result's score written in PGN notation: 1, ½ or 0 for each side, white first. |
| GameCard.BadgeTellsResult | frontend_chess98/components/game/game-card.tsx:42-58 | Two stored results get the same badge exactly when they are the same result. |
| GameCard.GetTitleColor | frontend_chess98/components/game/game-card.tsx:61-77 | "" exactly for a missing or empty title. Yellow exactly for GM/GP, blue exactly for IM/PI, and green exactly for FM/FP. Slate exactly for any other non-empty title. |
| GameCard.SameColourIffSameRank | frontend_chess98/components/game/game-card.tsx:61-77 | Two titles get the same colour exactly when they stand for the same rank: the English and Spanish spellings agree, and the colours tell the ranks apart. |
| GameSummary.ConvertGameForUI | frontend_chess98/models/game.ts:41-86 | The view is always white's: black is the opponent with black's rating. The result is draw iff "draw" and win iff "white_win". `moves` is the pgn's line count. The rating change defaults to 0, and the end reason to "unknown". |
| GameSummary.OutcomeIsWhites | frontend_chess98/models/game.ts:50-60 | For a stored result the outcome is a win exactly when black lost, and a loss exactly when white lost. |
| GameSummary.UnfinishedGameIsLoss | frontend_chess98/models/game.ts:50-60 | A game with no result is listed as a loss. |
| GameSummary.MovesCountLines | frontend_chess98/models/game.ts:63 | A pgn of k lines counts k moves, so an empty pgn counts one. |
| Endpoints.ReplacePathParams | frontend_chess98/constants/endpoints.ts:24-30 | Empty params return the endpoint unchanged. |
| Endpoints.AbsentKeysChangeNothing | frontend_chess98/constants/endpoints.ts:27 | Keys with no placeholder in the endpoint leave it unchanged, whatever the values. |
| Endpoints.FillsFirstSlot | frontend_chess98/constants/endpoints.ts:27 | A key fills only its first placeholder, and the rest of the template is kept verbatim. |
| Endpoints.GameByIdFilled | frontend_chess98/constants/endpoints.ts:11 | `GAME_BY_ID` with {id: x} gives "/games/" + x. |
| Endpoints.MakeMoveFilled | chess-app/constants/endpoints.ts:29 | `MAKE_MOVE` with {id: x} gives "/games/" + x + "/move". |
| Endpoints.OnlyFirstOccurrenceFilled | chess-app/constants/endpoints.ts:50-56 | A template with the placeholder twice has only the first one filled. |
| BoardTheme.GetBoardColors | frontend_chess98/utils/boardTheme.ts:16-67 | A known name gives its own palette, and any other name gives the default palette. |
| BoardTheme.PaletteDeterminesTheme | frontend_chess98/utils/boardTheme.ts:16-67 | Two names give the same palette exactly when they resolve to the same table entry. The six palettes are pairwise different. |
| BoardTheme.DefaultPaletteIffUnknown | frontend_chess98/utils/boardTheme.ts:16-67 | A name gets the default palette, and the default light colour, exactly when it is not one of the five other themes. |
| BoardTheme.CheckHighlightIsRedExceptBlue | frontend_chess98/utils/boardTheme.ts:22-62 | The check highlight is "rgba(255, 0, 0, 0.7)" on every theme but blue. |
| BoardTheme.HighlightedSquareIsShared | frontend_chess98/utils/boardTheme.ts:16-65 | Every palette marks highlighted squares the same translucent red. |

## Left out

- Chess rules (python-chess on the server, chess.js on the client) are foreign libraries. They are the `Moves.Rules` oracle, so threefold repetition is whatever the oracle reports for a position.
- Elo arithmetic, both for games and for puzzles, is floating point. Deltas are parameters returning integers, and ratings are integers.
- One `now` per handler stands for every clock read in it. In the move service, `update_time` and the new `last_move_timestamp` read the clock separately (chess98_api/app/services/move.py:41 and :53), and the microseconds between the two reads are not modelled.
- `set_active_puzzle` is not part of this model. Its meaning is assumed: it records the given puzzle as the profile's active one and changes nothing else.
- The wall clock, UUID generation and `random.shuffle` are not modelled. Their effects are parameters: `now`, a fresh id `newId`, and `swap`.
- The random puzzle pick (`ORDER BY random()`) is a `seed` index into the candidate window.
- Parsing ISO dates in the browser is a parameter, with None standing for NaN. Locale formatting (`formatDate`) is out, as it depends on the host's locale data.
- Concurrency is out: each handler invocation is one atomic step, and asyncio interleavings between handlers are not modelled.
- Cache time-to-live and JSON serialization are out. So is the string-queue re-parse in `find_match`, which cannot trigger with an in-memory cache.
- FindGame.Receive: a `cancel_search` whose `time_control` is an explicit JSON `null` is treated like a missing one (key "queue:blitz_5min"). The source applies the default only to a missing key, so `null` gives "queue:None". Neither is a key `find_game` ever queues under, so the only difference is which unused key gets an empty list written to it.
- The matchmaking queues are modelled as one shared map. In the source the find-game socket and `find_match` each create their own in-memory cache object. So in the source `cancel_search` never touches the queue `find_match` reads, and a cancelled player can still be paired. The model's cancel does remove the player from that queue.
- A direct send on the handler's own socket is assumed to succeed. Only registry sends and the direct sends to an opponent consult the failing set.
- Python's `int()` accepts non-ASCII Unicode digits. The model accepts ASCII digits only.
- JavaScript `replace` patterns such as `$&` in a replacement value, and `Object.entries`' ordering of integer-like keys, are out. Params are an ordered list of pairs.
- Prototype keys such as "constructor" in the board-theme lookup are not modelled.
- Non-integer seconds in `formatTime` are out: the input is an integer.
- The chat message's timestamp and the `message` text fields of server replies are out, because they are not behaviour anyone checks.
- `get_game_by_id`, the SQL of `get_games_by_user` and `refresh_active_puzzle` are database and HTTP plumbing. Only the per-player view, the pagination arithmetic and the rating window are modelled.
- The older `app/schemas/active_game.py`, `app/ws/game.py` and `app/ws/gameplay.py` are superseded duplicates and are not part of this model. The older game creation is modelled on the newer session record, with category "" and rating snapshots of 1200.
- JWT, password hashing, REST routes, React pages, stores and client services are I/O or UI, and are not part of this model.
- Gameplay.Receive: its resign, draw-offer, draw-accept and chat branches are stated by the contracts of the handlers it calls. Its own ensures cover the move, `check_timeout`, empty-chat and unrecognised branches only.
