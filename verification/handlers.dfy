/** The action handlers that decide rounds and matches between the two
    players of a lobby, seen from the client whose message is handled.
    The lobby and client objects are not part of this model; their
    behaviour enters only through the assumptions written down at each
    use: `getEnemy` gives the other seated player of the client's lobby,
    `loseLife` takes one life, `setPlayersLives` sets both players' lives,
    and `resetPlayers`, `join` and the broadcasts are recorded as calls. */
module ActionHandlers {
  import opened Text
  import opened InsaneNumber

  datatype GameMode = Attrition | Showdown | Survival

  /** The lobby options the handlers read. `startingLives` is the option's
      value once read as an integer, absent when the option is unset or
      empty. */
  datatype LobbyOptions = LobbyOptions(startingLives: Option<int>, deathOnRoundLoss: bool, differentSeeds: bool)

  /** The client's lobby: its mode, options, and the seat the client holds. */
  datatype Lobby = Lobby(mode: GameMode, options: LobbyOptions, clientIsHost: bool)

  /** The per-player fields the handlers read and write. */
  datatype Player = Player(
    isReady: bool, firstReady: bool, score: InsaneValue, handsLeft: int,
    lives: int, furthestBlind: int, skips: int, isReadyLobby: bool)

  datatype Seat = HostSeat | GuestSeat

  /** Who a message goes to, relative to the acting client. */
  datatype Recipient = ToClient | ToEnemy | ToLobby

  datatype Action =
    | Speedrun
    | StartBlind
    | StartGame(deck: string, seed: Option<string>)
    | StopGame
    | EnemyInfo(handsLeft: int, score: string, skips: int, lives: int)
    | EndPvP(lost: bool)
    | WinGame
    | LoseGame
    | Error(message: string)
    | Relay(tag: string, payload: string)

  /** Lobby methods whose effect is not part of this model. */
  datatype LobbyCall = ResetPlayers | JoinLobby(code: string)

  datatype Event = Send(to: Recipient, action: Action) | Call(call: LobbyCall)

  /** Everything a handler can read or change: the client's lobby, the
      client, the other seated player (meaningful only with a lobby), and
      what has been sent or called so far. */
  datatype Table = Table(lobby: Option<Lobby>, client: Player, enemy: Option<Player>, outbox: seq<Event>)

  const ServerVersion := "0.2.12-MULTIPLAYER"
  const VersionWarning := "[WARN] Server expecting version 0.2.12-MULTIPLAYER"
  const MissingLobby := "Lobby does not exist."
  const MultiplayerDeck := "c_multiplayer_1"
  const HandsPerBlind := 4

  // ---------------------------------------------------------------------------
  // Seats
  // ---------------------------------------------------------------------------

  /** `getEnemy(client)[1]`: the other seated player of the client's lobby;
      none without a lobby. */
  function Enemy(t: Table): Option<Player>
  {
    if t.lobby.Some? then t.enemy else None
  }

  /** Both seats are taken. */
  predicate Seated(t: Table)
  {
    t.lobby.Some? && t.enemy.Some?
  }

  function Other(s: Seat): Seat
  {
    if s == HostSeat then GuestSeat else HostSeat
  }

  function ClientSeat(t: Table): Seat
    requires t.lobby.Some?
  {
    if t.lobby.value.clientIsHost then HostSeat else GuestSeat
  }

  /** The player in a seat. */
  function At(t: Table, s: Seat): Player
    requires Seated(t)
  {
    if s == ClientSeat(t) then t.client else t.enemy.value
  }

  /** Where a message to the player in a seat goes. */
  function To(t: Table, s: Seat): Recipient
    requires t.lobby.Some?
  {
    if s == ClientSeat(t) then ToClient else ToEnemy
  }

  /** The table with the player in a seat replaced. */
  function Put(t: Table, s: Seat, p: Player): (r: Table)
    requires Seated(t)
    ensures Seated(r) && r.lobby == t.lobby && r.outbox == t.outbox
    ensures At(r, s) == p && At(r, Other(s)) == At(t, Other(s))
  {
    if s == ClientSeat(t) then t.(client := p) else t.(enemy := Some(p))
  }

  function Emit(t: Table, e: Event): Table
  {
    t.(outbox := t.outbox + [e])
  }

  function LoseLife(p: Player): Player
  {
    p.(lives := p.lives - 1)
  }

  // ---------------------------------------------------------------------------
  // Handlers as functions of the table
  // ---------------------------------------------------------------------------

  /** `readyBlindAction`. */
  function AfterReadyBlind(t: Table): Table
  {
    var t1 := t.(client := t.client.(isReady := true));
    var enemy := Enemy(t1);
    var t2 :=
      if !t1.client.firstReady && !(enemy.Some? && enemy.value.isReady)
         && !(enemy.Some? && enemy.value.firstReady)
      then Emit(t1.(client := t1.client.(firstReady := true)), Send(ToClient, Speedrun))
      else t1;
    if Seated(t2) && t2.client.isReady && t2.enemy.value.isReady then
      var reset := (p: Player) => p.(isReady := false, score := Zero, handsLeft := HandsPerBlind);
      Emit(t2.(client := reset(t2.client), enemy := Some(reset(t2.enemy.value))), Send(ToLobby, StartBlind))
    else t2
  }

  /** `stopGameAction`. */
  function AfterStopGame(t: Table): Table
  {
    if t.lobby.None? then t
    else Emit(Emit(t, Send(ToLobby, StopGame)), Call(ResetPlayers))
  }

  /** `playHandAction`, given the score the record carries read with
      `fromString` and its hand count. */
  function AfterPlayHand(t: Table, score: InsaneValue, handsLeft: int): Table
  {
    if !Seated(t) then AfterStopGame(t)
    else
      var client := t.client.(score := score, handsLeft := handsLeft);
      var t1 := Emit(t.(client := client),
                     Send(ToEnemy, EnemyInfo(handsLeft, Render(score), client.skips, client.lives)));
      AfterRoundCheck(t1)
  }

  /** The round has ended: a side out of hands is strictly behind, or both
      sides are out of hands. */
  predicate RoundOver(host: Player, guest: Player)
  {
    || (guest.handsLeft == 0 && LessThan(guest.score, host.score))
    || (host.handsLeft == 0 && LessThan(host.score, guest.score))
    || (host.handsLeft == 0 && guest.handsLeft == 0)
  }

  /** The round winner: the host only when the guest is behind. */
  function RoundWinner(host: Player, guest: Player): Seat
  {
    if LessThan(guest.score, host.score) then HostSeat else GuestSeat
  }

  /** The end-of-round part of `playHandAction`. */
  function AfterRoundCheck(t: Table): Table
    requires Seated(t)
  {
    var host, guest := At(t, HostSeat), At(t, GuestSeat);
    if !RoundOver(host, guest) then t
    else
      var winner := RoundWinner(host, guest);
      var loser := Other(winner);
      if !EqualTo(host.score, guest.score) then
        var t1 := Put(t, loser, LoseLife(At(t, loser)));
        var host1, guest1 := At(t1, HostSeat), At(t1, GuestSeat);
        if host1.lives == 0 || guest1.lives == 0 then
          var gameWinner := if host1.lives > guest1.lives then HostSeat else GuestSeat;
          var t2 := Emit(Emit(t1, Send(To(t1, gameWinner), WinGame)),
                         Send(To(t1, Other(gameWinner)), LoseGame));
          ClearFirstReady(t2, winner)
        else EndRound(t1, winner, true)
      else EndRound(t, winner, false)
  }

  /** Both players' `firstReady` cleared. */
  function ClearFirstReady(t: Table, winner: Seat): (r: Table)
    requires Seated(t)
    ensures Seated(r)
  {
    var t1 := Put(t, winner, At(t, winner).(firstReady := false));
    Put(t1, Other(winner), At(t1, Other(winner)).(firstReady := false))
  }

  /** Both `firstReady` flags cleared, then "endPvP" to the winner (not
      lost) and to the loser (lost when the scores differ). */
  function EndRound(t: Table, winner: Seat, scoresDiffer: bool): Table
    requires Seated(t)
  {
    var t1 := ClearFirstReady(t, winner);
    Emit(Emit(t1, Send(To(t1, winner), EndPvP(false))),
         Send(To(t1, Other(winner)), EndPvP(scoresDiffer)))
  }

  /** `startGameAction`: only the host starts a game; `modeLives` is the
      mode's default starting lives and `seed` a freshly generated seed. */
  function AfterStartGame(t: Table, modeLives: int, seed: string): Table
  {
    if t.lobby.None? || !t.lobby.value.clientIsHost then t
    else
      var options := t.lobby.value.options;
      var lives := if options.startingLives.Some? then options.startingLives.value else modeLives;
      var t1 := Emit(t, Send(ToLobby, StartGame(MultiplayerDeck, if options.differentSeeds then None else Some(seed))));
      var t2 := t1.(client := t1.client.(lives := lives),
                    enemy := if t1.enemy.Some? then Some(t1.enemy.value.(lives := lives)) else None);
      if t2.enemy.Some? then t2.(enemy := Some(t2.enemy.value.(isReadyLobby := false))) else t2
  }

  /** `failRoundAction`. */
  function AfterFailRound(t: Table): Table
  {
    if !Seated(t) then t
    else
      var lobby := t.lobby.value;
      var t1 := if lobby.options.deathOnRoundLoss then t.(client := LoseLife(t.client)) else t;
      var client, enemy := t1.client, t1.enemy.value;
      if client.lives != 0 then t1
      else if lobby.mode == Survival then
        if enemy.lives == 0 then
          if client.furthestBlind == enemy.furthestBlind then
            Emit(Emit(t1, Send(ToClient, WinGame)), Send(ToEnemy, WinGame))
          else if client.furthestBlind < enemy.furthestBlind then
            Emit(Emit(t1, Send(ToClient, LoseGame)), Send(ToEnemy, WinGame))
          else t1
        else if client.furthestBlind < enemy.furthestBlind then
          Emit(Emit(t1, Send(ToClient, LoseGame)), Send(ToEnemy, WinGame))
        else t1
      else Emit(Emit(t1, Send(ToEnemy, WinGame)), Send(ToClient, LoseGame))
  }

  /** `failTimerAction`: a life is lost even without a lobby. */
  function AfterFailTimer(t: Table): Table
  {
    var t1 := t.(client := LoseLife(t.client));
    if t1.lobby.None? || t1.client.lives != 0 then t1
    else
      var t2 := if Enemy(t1).Some? then Emit(t1, Send(ToEnemy, WinGame)) else t1;
      Emit(t2, Send(ToClient, LoseGame))
  }

  /** `setFurthestBlindAction`. */
  function AfterSetFurthestBlind(t: Table, furthestBlind: int): Table
  {
    var t1 := t.(client := t.client.(furthestBlind := furthestBlind));
    if !Seated(t1) then t1
    else if t1.lobby.value.mode == Survival && t1.enemy.value.lives == 0
            && t1.client.furthestBlind > t1.enemy.value.furthestBlind
    then Emit(Emit(t1, Send(ToClient, WinGame)), Send(ToEnemy, LoseGame))
    else t1
  }

  /** `joinLobbyAction`, given the codes of the lobbies that exist. */
  function AfterJoinLobby(t: Table, lobbies: set<string>, code: string): Table
  {
    if code !in lobbies then Emit(t, Send(ToClient, Error(MissingLobby)))
    else Emit(t, Call(JoinLobby(code)))
  }

  /** The relaying handlers (`sendPhantom` through `pauseAnteTimer`): the
      payload goes to the enemy, if there is one. */
  function AfterRelay(t: Table, tag: string, payload: string): Table
  {
    if Enemy(t).None? then t else Emit(t, Send(ToEnemy, Relay(tag, payload)))
  }

  // ---------------------------------------------------------------------------
  // Version check
  // ---------------------------------------------------------------------------

  datatype Release = Release(major: nat, minor: nat, patch: nat)

  const ServerRelease := Release(0, 2, 12)

  /** The length of the run of digits at the start of `s`. */
  function DigitRun(s: string): (n: nat)
    ensures n <= |s|
    ensures AllDigits(s[..n])
    ensures n < |s| ==> !IsDigit(s[n])
  {
    if s != [] && IsDigit(s[0]) then
      var n := 1 + DigitRun(s[1..]);
      assert s[..n] == [s[0]] + s[1..][..n - 1];
      n
    else 0
  }

  /** The release a version string starts with: `^(\d+\.\d+\.\d+)`, each
      part read as a number. */
  function LeadingRelease(s: string): Option<Release>
  {
    match NumberDot(s)
    case None => None
    case Some((major, r1)) =>
      match NumberDot(r1)
      case None => None
      case Some((minor, r2)) =>
        var c := DigitRun(r2);
        if c == 0 then None else Some(Release(major, minor, DigitsValue(r2[..c])))
  }

  /** `\d+\.` at the start of `s`: the number and the text after the dot. */
  function NumberDot(s: string): Option<(nat, string)>
  {
    var n := DigitRun(s);
    if n == 0 || n == |s| || s[n] != '.' then None else Some((DigitsValue(s[..n]), s[n + 1..]))
  }

  /** `a` is an older release than `b`: major, then minor, then patch. */
  predicate Older(a: Release, b: Release)
  {
    || a.major < b.major
    || (a.major == b.major && a.minor < b.minor)
    || (a.major == b.major && a.minor == b.minor && a.patch < b.patch)
  }

  /** `versionAction`. */
  function AfterVersion(t: Table, version: string): Table
  {
    match LeadingRelease(version)
    case Some(release) =>
      if Older(release, ServerRelease) then Emit(t, Send(ToClient, Error(VersionWarning))) else t
    case None => t
  }

  // ---------------------------------------------------------------------------
  // The handlers as they run: fields updated step by step
  // ---------------------------------------------------------------------------

  class Session {
    var lobby: Option<Lobby>
    var client: Player
    var enemy: Option<Player>
    var outbox: seq<Event>

    function State(): Table
      reads this
    {
      Table(lobby, client, enemy, outbox)
    }

    constructor (lobby: Option<Lobby>, client: Player, enemy: Option<Player>)
      ensures State() == Table(lobby, client, enemy, [])
    {
      this.lobby := lobby;
      this.client := client;
      this.enemy := enemy;
      this.outbox := [];
    }

    method SendAction(to: Recipient, action: Action)
      modifies this
      ensures State() == Emit(old(State()), Send(to, action))
    {
      outbox := outbox + [Send(to, action)];
    }

    method ReadyBlindAction()
      modifies this
      ensures State() == AfterReadyBlind(old(State()))
    {
      client := client.(isReady := true);
      var other := if lobby.Some? then enemy else None;
      if !client.firstReady && !(other.Some? && other.value.isReady)
         && !(other.Some? && other.value.firstReady)
      {
        client := client.(firstReady := true);
        SendAction(ToClient, Speedrun);
      }
      if lobby.Some? && enemy.Some? && client.isReady && enemy.value.isReady {
        client := client.(isReady := false);
        enemy := Some(enemy.value.(isReady := false));
        client := client.(score := Zero);
        enemy := Some(enemy.value.(score := Zero));
        client := client.(handsLeft := HandsPerBlind);
        enemy := Some(enemy.value.(handsLeft := HandsPerBlind));
        SendAction(ToLobby, StartBlind);
      }
    }

    method StopGameAction()
      modifies this
      ensures State() == AfterStopGame(old(State()))
    {
      if lobby.None? {
        return;
      }
      SendAction(ToLobby, StopGame);
      outbox := outbox + [Call(ResetPlayers)];
    }

    method PlayHandAction(score: InsaneValue, handsLeft: int)
      modifies this
      ensures State() == AfterPlayHand(old(State()), score, handsLeft)
    {
      if lobby.None? || enemy.None? {
        StopGameAction();
        return;
      }
      client := client.(score := score);
      client := client.(handsLeft := handsLeft);
      SendAction(ToEnemy, EnemyInfo(handsLeft, Render(score), client.skips, client.lives));
      RoundCheck();
    }

    /** The player in a seat. */
    function Occupant(s: Seat): Player
      requires lobby.Some? && enemy.Some?
      reads this
    {
      At(State(), s)
    }

    method SetPlayer(s: Seat, p: Player)
      requires lobby.Some? && enemy.Some?
      modifies this
      ensures State() == Put(old(State()), s, p)
    {
      if s == ClientSeat(State()) {
        client := p;
      } else {
        enemy := Some(p);
      }
    }

    method RoundCheck()
      requires lobby.Some? && enemy.Some?
      modifies this
      ensures State() == AfterRoundCheck(old(State()))
    {
      var host, guest := Occupant(HostSeat), Occupant(GuestSeat);
      if !RoundOver(host, guest) {
        return;
      }
      var winner := RoundWinner(host, guest);
      var loser := Other(winner);
      var differ := !EqualTo(host.score, guest.score);
      if differ {
        SetPlayer(loser, LoseLife(Occupant(loser)));
        if Occupant(HostSeat).lives == 0 || Occupant(GuestSeat).lives == 0 {
          var gameWinner := if Occupant(HostSeat).lives > Occupant(GuestSeat).lives then HostSeat else GuestSeat;
          SendAction(To(State(), gameWinner), WinGame);
          SendAction(To(State(), Other(gameWinner)), LoseGame);
          SetPlayer(winner, Occupant(winner).(firstReady := false));
          SetPlayer(loser, Occupant(loser).(firstReady := false));
          return;
        }
      }
      SetPlayer(winner, Occupant(winner).(firstReady := false));
      SetPlayer(loser, Occupant(loser).(firstReady := false));
      SendAction(To(State(), winner), EndPvP(false));
      SendAction(To(State(), loser), EndPvP(differ));
    }

    method StartGameAction(modeLives: int, seed: string)
      modifies this
      ensures State() == AfterStartGame(old(State()), modeLives, seed)
    {
      if lobby.None? || !lobby.value.clientIsHost {
        return;
      }
      var options := lobby.value.options;
      var lives := if options.startingLives.Some? then options.startingLives.value else modeLives;
      SendAction(ToLobby, StartGame(MultiplayerDeck, if options.differentSeeds then None else Some(seed)));
      // setPlayersLives
      client := client.(lives := lives);
      if enemy.Some? {
        enemy := Some(enemy.value.(lives := lives));
      }
      // unready the guest for the next game
      if enemy.Some? {
        enemy := Some(enemy.value.(isReadyLobby := false));
      }
    }

    method FailRoundAction()
      modifies this
      ensures State() == AfterFailRound(old(State()))
    {
      if lobby.None? || enemy.None? {
        return;
      }
      if lobby.value.options.deathOnRoundLoss {
        client := LoseLife(client);
      }
      if client.lives == 0 {
        var rival := enemy.value;
        if lobby.value.mode == Survival {
          if rival.lives == 0 {
            if client.furthestBlind == rival.furthestBlind {
              SendAction(ToClient, WinGame);
              SendAction(ToEnemy, WinGame);
            } else if client.furthestBlind < rival.furthestBlind {
              SendAction(ToClient, LoseGame);
              SendAction(ToEnemy, WinGame);
            }
          } else {
            if client.furthestBlind < rival.furthestBlind {
              SendAction(ToClient, LoseGame);
              SendAction(ToEnemy, WinGame);
            }
          }
        } else {
          SendAction(ToEnemy, WinGame);
          SendAction(ToClient, LoseGame);
        }
      }
    }

    method FailTimerAction()
      modifies this
      ensures State() == AfterFailTimer(old(State()))
    {
      client := LoseLife(client);
      if lobby.None? {
        return;
      }
      if client.lives == 0 {
        if enemy.Some? {
          SendAction(ToEnemy, WinGame);
        }
        SendAction(ToClient, LoseGame);
      }
    }

    method SetFurthestBlindAction(furthestBlind: int)
      modifies this
      ensures State() == AfterSetFurthestBlind(old(State()), furthestBlind)
    {
      client := client.(furthestBlind := furthestBlind);
      if lobby.None? || enemy.None? {
        return;
      }
      if lobby.value.mode == Survival && enemy.value.lives == 0
         && client.furthestBlind > enemy.value.furthestBlind
      {
        SendAction(ToClient, WinGame);
        SendAction(ToEnemy, LoseGame);
      }
    }

    method JoinLobbyAction(lobbies: set<string>, code: string)
      modifies this
      ensures State() == AfterJoinLobby(old(State()), lobbies, code)
    {
      if code !in lobbies {
        SendAction(ToClient, Error(MissingLobby));
        return;
      }
      outbox := outbox + [Call(JoinLobby(code))];
    }

    method RelayAction(tag: string, payload: string)
      modifies this
      ensures State() == AfterRelay(old(State()), tag, payload)
    {
      if lobby.None? || enemy.None? {
        return;
      }
      SendAction(ToEnemy, Relay(tag, payload));
    }

    method VersionAction(version: string)
      modifies this
      ensures State() == AfterVersion(old(State()), version)
    {
      var release := LeadingRelease(version);
      if release.Some? && Older(release.value, ServerRelease) {
        SendAction(ToClient, Error(VersionWarning));
      }
    }
  }

  // ---------------------------------------------------------------------------
  // Properties
  // ---------------------------------------------------------------------------

  /** How the table encodes `getEnemy`: the host's enemy is the guest, the
      guest's is the host, and a client without a lobby has none. This holds
      by the definitions of `Enemy` and the seats; it documents the encoding
      rather than proving anything about the lobby's own code. */
  lemma EnemyIsOtherSeat(t: Table)
    ensures Seated(t) ==> Enemy(t) == Some(At(t, Other(ClientSeat(t))))
    ensures t.lobby.None? ==> Enemy(t).None?
  {
  }

  /** The speedrun notice goes out, once, exactly when the client was not
      first-ready and the enemy is neither ready nor first-ready; the blind
      restarts, with one "startBlind" broadcast, exactly when both seats are
      taken and the enemy was ready. Lives never change. */
  lemma ReadyBlindOutcome(t: Table)
    ensures var e := Enemy(t);
            var speedrun := !t.client.firstReady && !(e.Some? && e.value.isReady)
                            && !(e.Some? && e.value.firstReady);
            var restart := Seated(t) && t.enemy.value.isReady;
            var r := AfterReadyBlind(t);
            && r.lobby == t.lobby
            && r.outbox == t.outbox + (if speedrun then [Send(ToClient, Speedrun)] else [])
                                    + (if restart then [Send(ToLobby, StartBlind)] else [])
            && r.client.firstReady == (t.client.firstReady || speedrun)
            && r.client.lives == t.client.lives
            && (restart ==> && !r.client.isReady && !r.enemy.value.isReady
                            && r.client.score == Zero && r.enemy.value.score == Zero
                            && r.client.handsLeft == HandsPerBlind
                            && r.enemy.value.handsLeft == HandsPerBlind
                            && r.enemy.value.lives == t.enemy.value.lives
                            && r.enemy.value.firstReady == t.enemy.value.firstReady)
            && (!restart ==> && r.client.isReady && r.enemy == t.enemy
                             && r.client.score == t.client.score
                             && r.client.handsLeft == t.client.handsLeft)
  {
  }

  /** Without both seats taken, a played hand records nothing: the game is
      stopped when there is a lobby, and nothing happens otherwise. */
  lemma PlayHandUnseated(t: Table, score: InsaneValue, handsLeft: int)
    requires !Seated(t)
    ensures AfterPlayHand(t, score, handsLeft).client == t.client
    ensures t.lobby.Some? ==> AfterPlayHand(t, score, handsLeft).outbox
                              == t.outbox + [Send(ToLobby, StopGame), Call(ResetPlayers)]
    ensures t.lobby.None? ==> AfterPlayHand(t, score, handsLeft) == t
  {
  }

  /** The table once the played hand is recorded. */
  function Recorded(t: Table, score: InsaneValue, handsLeft: int): Table
  {
    t.(client := t.client.(score := score, handsLeft := handsLeft))
  }

  /** The played hand is recorded and the enemy is told first, with the
      client's lives as they were before any loss this hand causes. */
  lemma PlayHandInformsEnemy(t: Table, score: InsaneValue, handsLeft: int)
    requires Seated(t)
    ensures var r := AfterPlayHand(t, score, handsLeft);
            && r.lobby == t.lobby
            && r.client.score == score && r.client.handsLeft == handsLeft
            && |r.outbox| > |t.outbox|
            && r.outbox[..|t.outbox| + 1]
               == t.outbox + [Send(ToEnemy, EnemyInfo(handsLeft, Render(score), t.client.skips, t.client.lives))]
  {
    var t1 := Emit(Recorded(t, score, handsLeft),
                   Send(ToEnemy, EnemyInfo(handsLeft, Render(score), t.client.skips, t.client.lives)));
    RoundCheckExtends(t1);
    assert AfterPlayHand(t, score, handsLeft) == AfterRoundCheck(t1);
  }

  lemma RoundCheckExtends(t: Table)
    requires Seated(t)
    ensures var r := AfterRoundCheck(t);
            && r.lobby == t.lobby && |r.outbox| >= |t.outbox| && r.outbox[..|t.outbox|] == t.outbox
            && At(r, HostSeat).score == At(t, HostSeat).score
            && At(r, GuestSeat).score == At(t, GuestSeat).score
            && At(r, HostSeat).handsLeft == At(t, HostSeat).handsLeft
            && At(r, GuestSeat).handsLeft == At(t, GuestSeat).handsLeft
  {
    var host, guest := At(t, HostSeat), At(t, GuestSeat);
    if RoundOver(host, guest) {
      var winner := RoundWinner(host, guest);
      var loser := Other(winner);
      if !EqualTo(host.score, guest.score) {
        var t1 := Put(t, loser, LoseLife(At(t, loser)));
        PutExtends(t, loser, LoseLife(At(t, loser)));
        var host1, guest1 := At(t1, HostSeat), At(t1, GuestSeat);
        if host1.lives == 0 || guest1.lives == 0 {
          var gameWinner := if host1.lives > guest1.lives then HostSeat else GuestSeat;
          var t2 := Emit(t1, Send(To(t1, gameWinner), WinGame));
          var t3 := Emit(t2, Send(To(t1, Other(gameWinner)), LoseGame));
          EmitExtends(t1, Send(To(t1, gameWinner), WinGame));
          EmitExtends(t2, Send(To(t1, Other(gameWinner)), LoseGame));
          ClearExtends(t3, winner);
          ExtendsTrans(t, t1, t2);
          ExtendsTrans(t, t2, t3);
          ExtendsTrans(t, t3, ClearFirstReady(t3, winner));
        } else {
          EndRoundExtends(t1, winner, true);
          ExtendsTrans(t, t1, EndRound(t1, winner, true));
        }
      } else {
        EndRoundExtends(t, winner, false);
      }
    } else {
      ExtendsRefl(t);
    }
  }

  /** `r` differs from `t` at most in lives, flags and further sends. */
  ghost predicate Extends(t: Table, r: Table)
    requires Seated(t) && Seated(r)
  {
    && r.lobby == t.lobby && |r.outbox| >= |t.outbox| && r.outbox[..|t.outbox|] == t.outbox
    && At(r, HostSeat).score == At(t, HostSeat).score
    && At(r, GuestSeat).score == At(t, GuestSeat).score
    && At(r, HostSeat).handsLeft == At(t, HostSeat).handsLeft
    && At(r, GuestSeat).handsLeft == At(t, GuestSeat).handsLeft
  }

  lemma ExtendsRefl(t: Table)
    requires Seated(t)
    ensures Extends(t, t)
  {
    TakeAll(t.outbox);
  }

  lemma ExtendsTrans(a: Table, b: Table, c: Table)
    requires Seated(a) && Seated(b) && Seated(c)
    requires Extends(a, b) && Extends(b, c)
    ensures Extends(a, c)
  {
    assert c.outbox[..|a.outbox|] == c.outbox[..|b.outbox|][..|a.outbox|];
  }

  lemma PutExtends(t: Table, s: Seat, p: Player)
    requires Seated(t)
    requires p.score == At(t, s).score && p.handsLeft == At(t, s).handsLeft
    ensures Extends(t, Put(t, s, p))
  {
    TakeAll(t.outbox);
    assert s == HostSeat || s == GuestSeat;
  }

  lemma EmitExtends(t: Table, e: Event)
    requires Seated(t)
    ensures Seated(Emit(t, e)) && Extends(t, Emit(t, e))
  {
    assert (t.outbox + [e])[..|t.outbox|] == t.outbox;
  }

  lemma ClearExtends(t: Table, winner: Seat)
    requires Seated(t)
    ensures Extends(t, ClearFirstReady(t, winner))
  {
    var t1 := Put(t, winner, At(t, winner).(firstReady := false));
    PutExtends(t, winner, At(t, winner).(firstReady := false));
    PutExtends(t1, Other(winner), At(t1, Other(winner)).(firstReady := false));
    ExtendsTrans(t, t1, ClearFirstReady(t, winner));
  }

  lemma EndRoundExtends(t: Table, winner: Seat, scoresDiffer: bool)
    requires Seated(t)
    ensures Seated(EndRound(t, winner, scoresDiffer)) && Extends(t, EndRound(t, winner, scoresDiffer))
  {
    var t1 := ClearFirstReady(t, winner);
    var t2 := Emit(t1, Send(To(t1, winner), EndPvP(false)));
    ClearExtends(t, winner);
    EmitExtends(t1, Send(To(t1, winner), EndPvP(false)));
    EmitExtends(t2, Send(To(t1, Other(winner)), EndPvP(scoresDiffer)));
    ExtendsTrans(t, t1, t2);
    ExtendsTrans(t, t2, EndRound(t, winner, scoresDiffer));
  }

  /** The round winner is never behind the loser, and a tie goes to the
      guest. */
  lemma RoundWinnerNotBehind(host: Player, guest: Player)
    ensures var w := RoundWinner(host, guest);
            var winner := if w == HostSeat then host else guest;
            var loser := if w == HostSeat then guest else host;
            !LessThan(winner.score, loser.score)
    ensures EqualTo(host.score, guest.score) ==> RoundWinner(host, guest) == GuestSeat
  {
    Trichotomy(guest.score, host.score);
    Trichotomy(host.score, guest.score);
  }

  /** A round that has not ended sends nothing more and changes no one. */
  lemma RoundContinues(t: Table)
    requires Seated(t) && !RoundOver(At(t, HostSeat), At(t, GuestSeat))
    ensures AfterRoundCheck(t) == t
  {
  }

  /** A tied round: nobody loses a life, and both players are told they did
      not lose. */
  lemma RoundTied(t: Table)
    requires Seated(t)
    requires RoundOver(At(t, HostSeat), At(t, GuestSeat))
    requires EqualTo(At(t, HostSeat).score, At(t, GuestSeat).score)
    ensures var r := AfterRoundCheck(t);
            && Seated(r)
            && At(r, HostSeat).lives == At(t, HostSeat).lives
            && At(r, GuestSeat).lives == At(t, GuestSeat).lives
            && r.outbox == t.outbox + [Send(To(t, GuestSeat), EndPvP(false)), Send(To(t, HostSeat), EndPvP(false))]
            && !At(r, HostSeat).firstReady && !At(r, GuestSeat).firstReady
  {
  }

  /** A decided round that leaves both players alive: the loser loses
      exactly one life, the winner none; the winner is told it did not lose
      and the loser that it lost. */
  lemma RoundDecided(t: Table)
    requires Seated(t)
    requires RoundOver(At(t, HostSeat), At(t, GuestSeat))
    requires !EqualTo(At(t, HostSeat).score, At(t, GuestSeat).score)
    requires var w := RoundWinner(At(t, HostSeat), At(t, GuestSeat));
             At(t, w).lives != 0 && At(t, Other(w)).lives != 1
    ensures var w := RoundWinner(At(t, HostSeat), At(t, GuestSeat));
            var r := AfterRoundCheck(t);
            && Seated(r)
            && At(r, w).lives == At(t, w).lives
            && At(r, Other(w)).lives == At(t, Other(w)).lives - 1
            && r.outbox == t.outbox + [Send(To(t, w), EndPvP(false)), Send(To(t, Other(w)), EndPvP(true))]
            && !At(r, HostSeat).firstReady && !At(r, GuestSeat).firstReady
  {
  }

  /** A decided round that leaves a player without lives ends the match:
      the player with more lives (the guest when equal) is sent "winGame"
      and the other "loseGame", once each, and no "endPvP" is sent. */
  lemma MatchOver(t: Table)
    requires Seated(t)
    requires RoundOver(At(t, HostSeat), At(t, GuestSeat))
    requires !EqualTo(At(t, HostSeat).score, At(t, GuestSeat).score)
    requires var w := RoundWinner(At(t, HostSeat), At(t, GuestSeat));
             At(t, w).lives == 0 || At(t, Other(w)).lives == 1
    ensures var w := RoundWinner(At(t, HostSeat), At(t, GuestSeat));
            var r := AfterRoundCheck(t);
            var h, g := At(r, HostSeat).lives, At(r, GuestSeat).lives;
            var gw := if h > g then HostSeat else GuestSeat;
            && Seated(r)
            && (h == 0 || g == 0)
            && At(r, Other(w)).lives == At(t, Other(w)).lives - 1
            && r.outbox == t.outbox + [Send(To(t, gw), WinGame), Send(To(t, Other(gw)), LoseGame)]
            && !At(r, HostSeat).firstReady && !At(r, GuestSeat).firstReady
  {
  }

  /** Failing a round costs the client a life only with death on round loss;
      it never touches the enemy. */
  lemma FailRoundLives(t: Table)
    requires Seated(t)
    ensures var r := AfterFailRound(t);
            && r.lobby == t.lobby && r.enemy == t.enemy
            && r.client.lives == t.client.lives - (if t.lobby.value.options.deathOnRoundLoss then 1 else 0)
            && r.client.(lives := t.client.lives) == t.client
  {
  }

  /** At zero lives after failing a round: outside survival the client
      loses and the enemy wins; in survival the furthest blind decides (both
      win on a tie when both are dead), and a client that is ahead is sent
      nothing. With lives left, nothing is sent. */
  lemma FailRoundVerdict(t: Table)
    requires Seated(t)
    ensures var r := AfterFailRound(t);
            var lives := r.client.lives;
            var mode := t.lobby.value.mode;
            var mine, theirs := t.client.furthestBlind, t.enemy.value.furthestBlind;
            var enemyDead := t.enemy.value.lives == 0;
            && (lives != 0 ==> r.outbox == t.outbox)
            && (lives == 0 && mode != Survival
                ==> r.outbox == t.outbox + [Send(ToEnemy, WinGame), Send(ToClient, LoseGame)])
            && (lives == 0 && mode == Survival && enemyDead && mine == theirs
                ==> r.outbox == t.outbox + [Send(ToClient, WinGame), Send(ToEnemy, WinGame)])
            && (lives == 0 && mode == Survival && mine < theirs
                ==> r.outbox == t.outbox + [Send(ToClient, LoseGame), Send(ToEnemy, WinGame)])
            && (lives == 0 && mode == Survival && (mine > theirs || (!enemyDead && mine == theirs))
                ==> r.outbox == t.outbox)
  {
  }

  /** Without both seats taken, failing a round does nothing. */
  lemma FailRoundUnseated(t: Table)
    requires !Seated(t)
    ensures AfterFailRound(t) == t
  {
  }

  /** A timed-out client always loses a life, lobby or not; at zero lives
      in a lobby it loses the match and its enemy, if any, wins it, in every
      mode. */
  lemma FailTimerOutcome(t: Table)
    ensures var r := AfterFailTimer(t);
            && r.lobby == t.lobby && r.enemy == t.enemy
            && r.client == t.client.(lives := t.client.lives - 1)
            && (t.lobby.None? || r.client.lives != 0 ==> r.outbox == t.outbox)
            && (t.lobby.Some? && r.client.lives == 0
                ==> r.outbox == t.outbox + (if t.enemy.Some? then [Send(ToEnemy, WinGame)] else [])
                                         + [Send(ToClient, LoseGame)])
  {
  }

  /** The furthest blind is always stored; the client wins at once exactly
      in survival, against a dead enemy it has passed. */
  lemma SetFurthestBlindOutcome(t: Table, furthestBlind: int)
    ensures var r := AfterSetFurthestBlind(t, furthestBlind);
            var wins := Seated(t) && t.lobby.value.mode == Survival && t.enemy.value.lives == 0
                        && furthestBlind > t.enemy.value.furthestBlind;
            && r.lobby == t.lobby && r.enemy == t.enemy
            && r.client == t.client.(furthestBlind := furthestBlind)
            && r.outbox == t.outbox + (if wins then [Send(ToClient, WinGame), Send(ToEnemy, LoseGame)] else [])
  {
  }

  /** Only the host starts a game: one "startGame" broadcast, with a seed
      unless the lobby plays different seeds, both players' lives set from
      the lobby option or the mode's default, and the guest unreadied. */
  lemma StartGameOutcome(t: Table, modeLives: int, seed: string)
    ensures var r := AfterStartGame(t, modeLives, seed);
            && (t.lobby.None? || !t.lobby.value.clientIsHost ==> r == t)
            && (t.lobby.Some? && t.lobby.value.clientIsHost ==>
                  var options := t.lobby.value.options;
                  var lives := if options.startingLives.Some? then options.startingLives.value else modeLives;
                  && r.lobby == t.lobby
                  && r.outbox == t.outbox + [Send(ToLobby, StartGame(MultiplayerDeck,
                                                  if options.differentSeeds then None else Some(seed)))]
                  && r.client == t.client.(lives := lives)
                  && r.enemy.Some? == t.enemy.Some?
                  && (t.enemy.Some? ==> r.enemy.value == t.enemy.value.(lives := lives, isReadyLobby := false)))
  {
  }

  /** Stopping the game broadcasts "stopGame" and resets the players, once,
      and only with a lobby. */
  lemma StopGameOutcome(t: Table)
    ensures var r := AfterStopGame(t);
            && r.lobby == t.lobby && r.client == t.client && r.enemy == t.enemy
            && r.outbox == t.outbox + (if t.lobby.Some? then [Send(ToLobby, StopGame), Call(ResetPlayers)] else [])
  {
  }

  /** Joining an unknown lobby sends the client one error and joins
      nothing; a known code is joined. */
  lemma JoinLobbyOutcome(t: Table, lobbies: set<string>, code: string)
    ensures var r := AfterJoinLobby(t, lobbies, code);
            && r.(outbox := t.outbox) == t
            && r.outbox == t.outbox + [if code in lobbies then Call(JoinLobby(code)) else Send(ToClient, Error(MissingLobby))]
  {
  }

  /** A relayed message reaches the enemy once; with no enemy nothing
      happens. */
  lemma RelayOutcome(t: Table, tag: string, payload: string)
    ensures var r := AfterRelay(t, tag, payload);
            && r.(outbox := t.outbox) == t
            && r.outbox == t.outbox + (if Enemy(t).Some? then [Send(ToEnemy, Relay(tag, payload))] else [])
  {
  }

  // ---------------------------------------------------------------------------
  // Version properties
  // ---------------------------------------------------------------------------

  /** The client is warned, once, exactly when its version starts with an
      older release than the server's; the check never changes anything
      else. */
  lemma VersionOutcome(t: Table, version: string)
    ensures var r := AfterVersion(t, version);
            var older := LeadingRelease(version).Some? && Older(LeadingRelease(version).value, ServerRelease);
            && r.(outbox := t.outbox) == t
            && r.outbox == t.outbox + (if older then [Send(ToClient, Error(VersionWarning))] else [])
  {
  }

  /** `Older` is a strict total order on releases. */
  lemma OlderIsStrictTotal(a: Release, b: Release, c: Release)
    ensures !Older(a, a)
    ensures Older(a, b) && Older(b, c) ==> Older(a, c)
    ensures a == b || Older(a, b) || Older(b, a)
    ensures !(Older(a, b) && Older(b, a))
  {
  }

  /** The text of a release: its three numbers joined by dots. */
  function ReleaseText(r: Release): string
  {
    NatToDigits(r.major) + "." + NatToDigits(r.minor) + "." + NatToDigits(r.patch)
  }

  lemma DigitRunOf(digits: string, rest: string)
    requires AllDigits(digits) && (rest == [] || !IsDigit(rest[0]))
    ensures DigitRun(digits + rest) == |digits|
    decreases |digits|
  {
    if digits != [] {
      assert (digits + rest)[1..] == digits[1..] + rest;
      DigitRunOf(digits[1..], rest);
    } else {
      assert digits + rest == rest;
    }
  }

  /** A number followed by a dot reads as that number and what follows. */
  lemma NumberThenDot(digits: string, rest: string)
    requires AllDigits(digits) && |digits| >= 1
    ensures NumberDot(digits + "." + rest) == Some((DigitsValue(digits), rest))
  {
    var s := digits + "." + rest;
    assert s == digits + ("." + rest);
    DigitRunOf(digits, "." + rest);
    assert s[|digits|] == '.';
    assert s[..|digits|] == digits;
    assert s[|digits| + 1..] == rest;
  }

  /** The last number of a release, ended by anything but a digit. */
  lemma NumberThenEnd(digits: string, suffix: string)
    requires AllDigits(digits) && |digits| >= 1 && (suffix == [] || !IsDigit(suffix[0]))
    ensures DigitRun(digits + suffix) == |digits| && (digits + suffix)[..|digits|] == digits
  {
    DigitRunOf(digits, suffix);
    assert (digits + suffix)[..|digits|] == digits;
  }

  /** A release's text, followed by anything that does not continue its
      last number, reads back as that release. */
  lemma LeadingReleaseOfText(r: Release, suffix: string)
    requires suffix == [] || !IsDigit(suffix[0])
    ensures LeadingRelease(ReleaseText(r) + suffix) == Some(r)
  {
    var a, b, c := NatToDigits(r.major), NatToDigits(r.minor), NatToDigits(r.patch);
    DigitsRoundTrip(r.major);
    DigitsRoundTrip(r.minor);
    DigitsRoundTrip(r.patch);
    var r2 := c + suffix;
    var r1 := b + "." + r2;
    Regroup(a, ".", b, ".", c, suffix);
    NumberThenDot(a, r1);
    NumberThenDot(b, r2);
    NumberThenEnd(c, suffix);
  }

  /** The server's own version string starts with the server release, so
      the server's version is not older than itself. */
  lemma ServerVersionRelease()
    ensures LeadingRelease(ServerVersion) == Some(ServerRelease)
  {
    assert NatToDigits(0) == "0";
    assert NatToDigits(2) == "2";
    assert NatToDigits(12) == "12";
    assert ServerVersion == ReleaseText(ServerRelease) + "-MULTIPLAYER";
    LeadingReleaseOfText(ServerRelease, "-MULTIPLAYER");
  }
}
