/** One client connection of the multiplayer server: the keep-alive
    watchdog, the framing of incoming data into records and their dispatch,
    disconnect handling, and the three ad-hoc text codecs that sit beside
    them. `serializeAction` is exported for the rest of the
    server; `stringToJson` and `scientificNotationToBigInt` are helpers
    without a caller in it. */
module Connection {
  import opened Text
  import opened InsaneNumber

  // ---------------------------------------------------------------------------
  // Messages
  // ---------------------------------------------------------------------------

  /** Milliseconds before the first keep-alive probe after the last data. */
  const KeepAliveInitialTimeout: nat := 5000
  /** Milliseconds between keep-alive retries. */
  const KeepAliveRetryTimeout: nat := 2500
  /** Retries after which a silent socket is declared dead. */
  const KeepAliveRetryCount: nat := 3

  const ParseFailure: string := "Failed to parse message"

  /** The messages the connection itself sends to its client. */
  datatype ServerAction = Connected | AskVersion | KeepAlive | Error(message: string)

  /** A record as the JSON parser returns it: its `action` tag and the rest
      of its fields, kept as opaque text. */
  datatype Message = Message(action: string, args: string)

  /** What the connection does: send a message, run the handler for a
      record, or remove its client from its lobby. */
  datatype Effect = Send(action: ServerAction) | Handle(message: Message) | LeaveLobby

  /** The dispatch switch has a case for `tag`. */
  predicate IsHandled(tag: string)
  {
    tag in { "setLocation", "version", "username", "createLobby", "joinLobby",
      "lobbyInfo", "leaveLobby", "readyLobby", "unreadyLobby", "startGame",
      "readyBlind", "unreadyBlind", "keepAlive", "playHand", "stopGame",
      "gameInfo", "lobbyOptions", "newRound", "failRound", "setAnte",
      "setFurthestBlind", "skip", "sendPhantom", "removePhantom", "asteroid",
      "letsGoGamblingNemesis", "eatPizza", "soldJoker", "spentLastShop",
      "magnet", "magnetResponse", "getEndGameJokers", "receiveEndGameJokers",
      "getNemesisDeck", "receiveNemesisDeck", "startAnteTimer", "pauseAnteTimer",
      "failTimer", "syncClient", "endGameStatsRequested", "nemesisEndGameStats" }
  }

  // ---------------------------------------------------------------------------
  // Connection state and its transitions
  // ---------------------------------------------------------------------------

  /** The watchdog's variables, whether each timer is pending, whether the
      socket has been ended, and everything the connection has done. */
  datatype Link = Link(isRetry: bool, retryCount: int, initialArmed: bool,
                       retryArmed: bool, ended: bool, effects: seq<Effect>)

  /** A new connection: greeted, asked for its version, both timers pending. */
  const Opened: Link := Link(false, 0, true, true, false, [Send(Connected), Send(AskVersion)])

  /** The initial timer fires: probe once and enter retry mode. */
  function AfterInitialTimer(w: Link): Link
  {
    w.(effects := w.effects + [Send(KeepAlive)], isRetry := true,
       initialArmed := false, retryArmed := true)
  }

  /** The retry timer fires: ignored outside retry mode; otherwise probe
      again, count the retry, and end the socket at the retry limit or
      re-arm the timer below it. */
  function AfterRetryTimer(w: Link): Link
  {
    if !w.isRetry then w.(retryArmed := false)
    else
      var count := w.retryCount + 1;
      var probed := w.(effects := w.effects + [Send(KeepAlive)], retryCount := count);
      if count >= KeepAliveRetryCount as int then probed.(retryArmed := false, ended := true)
      else probed.(retryArmed := true)
  }

  /** One record: an unparseable one earns one error; a parsed one runs its
      handler when its tag has a case, and nothing otherwise. */
  function HandleRecord(record: string, parse: string -> Option<Message>): (r: seq<Effect>)
    ensures |r| <= 1
    ensures parse(record).None? <==> r == [Send(Error(ParseFailure))]
    ensures r != [] && parse(record).Some? ==> r == [Handle(parse(record).value)]
    ensures parse(record).Some? ==> (r == [Handle(parse(record).value)] <==> IsHandled(parse(record).value.action))
    ensures parse(record).Some? && !IsHandled(parse(record).value.action) ==> r == []
  {
    match parse(record)
    case None => [Send(Error(ParseFailure))]
    case Some(m) => if IsHandled(m.action) then [Handle(m)] else []
  }

  /** The records of a chunk handled in order, up to the first empty one. */
  function Dispatched(records: seq<string>, parse: string -> Option<Message>): seq<Effect>
    decreases |records|, 1
  {
    if records == [] || records[0] == "" then []
    else DispatchedFrom(records, parse)
  }

  /** A chunk whose first record is not empty: that record is handled, then
      the rest of the chunk. */
  function DispatchedFrom(records: seq<string>, parse: string -> Option<Message>): seq<Effect>
    requires records != [] && records[0] != ""
    decreases |records|, 0
  {
    HandleRecord(records[0], parse) + Dispatched(records[1..], parse)
  }

  /** Data arrives: leave retry mode, reset the retry count, re-arm the
      initial timer, then handle the chunk's records. */
  function AfterData(w: Link, data: string, parse: string -> Option<Message>): Link
  {
    w.(isRetry := false, retryCount := 0, initialArmed := true,
       effects := w.effects + Dispatched(Split(data, '\n'), parse))
  }

  lemma AfterDataIs(w: Link, data: string, parse: string -> Option<Message>, effects: seq<Effect>)
    requires effects == w.effects + Dispatched(Split(data, '\n'), parse)
    ensures AfterData(w, data, parse) == Link(false, 0, true, w.retryArmed, w.ended, effects)
  {
  }

  /** The socket ends, or fails with any error code: the client leaves its
      lobby. */
  function AfterDisconnect(w: Link): Link
  {
    w.(effects := w.effects + [LeaveLobby])
  }

  class Connection {
    var isRetry: bool
    var retryCount: int
    var initialArmed: bool
    var retryArmed: bool
    var ended: bool
    var effects: seq<Effect>

    function State(): Link
      reads this
    {
      Link(isRetry, retryCount, initialArmed, retryArmed, ended, effects)
    }

    constructor()
      ensures State() == Opened
    {
      isRetry := false;
      retryCount := 0;
      initialArmed := true;
      retryArmed := true;
      ended := false;
      effects := [Send(Connected), Send(AskVersion)];
    }

    /** The initial timer's callback; it runs only while that timer is
        pending. */
    method InitialTimerFires()
      requires initialArmed
      modifies this
      ensures State() == AfterInitialTimer(old(State()))
    {
      initialArmed := false;
      effects := effects + [Send(KeepAlive)];
      isRetry := true;
      retryArmed := true;
    }

    /** The retry timer's callback; it runs only while that timer is
        pending. */
    method RetryTimerFires()
      requires retryArmed
      modifies this
      ensures State() == AfterRetryTimer(old(State()))
    {
      retryArmed := false;
      if !isRetry {
        return;
      }
      effects := effects + [Send(KeepAlive)];
      retryCount := retryCount + 1;
      if retryCount >= KeepAliveRetryCount as int {
        ended := true;
      } else {
        retryArmed := true;
      }
    }

    /** The data callback: reset the watchdog, then handle the chunk's
        records. */
    method DataReceived(data: string, parse: string -> Option<Message>)
      modifies this
      ensures State() == AfterData(old(State()), data, parse)
    {
      ghost var w := State();
      isRetry := false;
      retryCount := 0;
      initialArmed := true;
      var records := Split(data, '\n');
      assert effects == w.effects;
      HandleRecords(records, parse);
      AfterDataIs(w, data, parse, effects);
    }

    /** The data callback's loop: each record in order, returning at the
        first empty one. */
    method HandleRecords(records: seq<string>, parse: string -> Option<Message>)
      modifies this`effects
      ensures effects == old(effects) + Dispatched(records, parse)
    {
      ghost var base := effects;
      AppendEmpty(base);
      var i := 0;
      while i < |records|
        invariant i <= |records|
        invariant forall j :: 0 <= j < i ==> records[j] != ""
        invariant effects == base + Dispatched(records[..i], parse)
      {
        var stop := HandleMessage(records, i, parse, base);
        if stop {
          return;
        }
        i := i + 1;
      }
      TakeAll(records);
    }

    /** One pass of the data callback's loop: stop at an empty record,
        otherwise parse the record and run its case of the switch, adding
        what that does to the effects of the records before it. */
    method HandleMessage(records: seq<string>, i: nat, parse: string -> Option<Message>, ghost base: seq<Effect>)
      returns (stop: bool)
      requires i < |records|
      requires forall j :: 0 <= j < i ==> records[j] != ""
      requires effects == base + Dispatched(records[..i], parse)
      modifies this`effects
      ensures stop <==> records[i] == ""
      ensures stop ==> effects == base + Dispatched(records, parse)
      ensures !stop ==> effects == base + Dispatched(records[..i + 1], parse)
    {
      DispatchedStep(records, i, parse);
      if records[i] == "" {
        return true;
      }
      AppendAssoc(base, Dispatched(records[..i], parse), HandleRecord(records[i], parse));
      effects := effects + HandleRecord(records[i], parse);
      return false;
    }

    /** The socket's `end` event. */
    method SocketEnded()
      modifies this
      ensures State() == AfterDisconnect(old(State()))
    {
      effects := effects + [LeaveLobby];
    }

    /** The socket's `error` event; a reset by the peer and any other error
        differ only in what is logged. */
    method SocketFailed(code: string)
      modifies this
      ensures State() == AfterDisconnect(old(State()))
    {
      if code == "ECONNRESET" {
        effects := effects + [LeaveLobby];
      } else {
        effects := effects + [LeaveLobby];
      }
    }
  }

  // ---------------------------------------------------------------------------
  // Watchdog properties
  // ---------------------------------------------------------------------------

  /** The two timers of the watchdog. */
  datatype Timer = InitialTimer | RetryTimer

  /** The connection after a series of timer expiries with no data in
      between; a timer that is not pending does not fire. */
  function Silence(w: Link, timers: seq<Timer>): Link
    decreases |timers|
  {
    if timers == [] then w
    else
      var next :=
        match timers[0]
        case InitialTimer => if w.initialArmed then AfterInitialTimer(w) else w
        case RetryTimer => if w.retryArmed then AfterRetryTimer(w) else w;
      Silence(next, timers[1..])
  }

  /** Outside retry mode the retry timer's expiry does nothing. */
  lemma RetryIgnoredOutsideRetry(w: Link)
    requires !w.isRetry
    ensures AfterRetryTimer(w) == w.(retryArmed := false)
  {
  }

  /** Received data always leaves retry mode, clears the retry count and
      re-arms the initial timer, whatever the watchdog's state, and does
      not end the socket. */
  lemma DataResetsWatchdog(w: Link, data: string, parse: string -> Option<Message>)
    ensures var r := AfterData(w, data, parse);
            && !r.isRetry && r.retryCount == 0 && r.initialArmed
            && r.retryArmed == w.retryArmed && r.ended == w.ended
            && r.effects[..|w.effects|] == w.effects
  {
  }

  /** The states a silent connection passes through. */
  predicate Quiet(w: Link)
  {
    && 0 <= w.retryCount <= KeepAliveRetryCount as int
    && (w.isRetry ==> !w.initialArmed)
    && (!w.isRetry ==> w.retryCount == 0)
    && (w.retryCount == KeepAliveRetryCount as int ==> !w.retryArmed)
  }

  /** Keep-alive probes a quiet connection can still send without hearing
      from its client. */
  function ProbesLeft(w: Link): nat
    requires Quiet(w)
  {
    (if w.initialArmed then KeepAliveRetryCount + 1 else 0)
    + (if w.isRetry && w.retryArmed then KeepAliveRetryCount - w.retryCount else 0)
  }

  /** A new connection and one that has just received data are quiet, with
      four probes left. */
  lemma QuietAfterData(w: Link, data: string, parse: string -> Option<Message>)
    ensures Quiet(Opened) && ProbesLeft(Opened) == 4
    ensures Quiet(AfterData(w, data, parse)) && ProbesLeft(AfterData(w, data, parse)) == 4
  {
  }

  /** Whatever the order of timer expiries, a silent client is sent at most
      the probes left, all of them keep-alives, and nothing else. */
  lemma {:induction false} SilenceBounded(w: Link, timers: seq<Timer>)
    requires Quiet(w)
    ensures var r := Silence(w, timers);
            && |w.effects| <= |r.effects| <= |w.effects| + ProbesLeft(w)
            && r.effects[..|w.effects|] == w.effects
            && (forall i :: |w.effects| <= i < |r.effects| ==> r.effects[i] == Send(KeepAlive))
    decreases |timers|
  {
    if timers != [] {
      var next :=
        match timers[0]
        case InitialTimer => if w.initialArmed then AfterInitialTimer(w) else w
        case RetryTimer => if w.retryArmed then AfterRetryTimer(w) else w;
      assert Quiet(next) && ProbesLeft(next) + |next.effects| <= ProbesLeft(w) + |w.effects|;
      assert |next.effects| >= |w.effects| && next.effects[..|w.effects|] == w.effects;
      assert forall i :: |w.effects| <= i < |next.effects| ==> next.effects[i] == Send(KeepAlive);
      SilenceBounded(next, timers[1..]);
      var r := Silence(next, timers[1..]);
      assert r == Silence(w, timers);
      assert r.effects[..|w.effects|] == r.effects[..|next.effects|][..|w.effects|];
      forall i | |w.effects| <= i < |r.effects|
        ensures r.effects[i] == Send(KeepAlive)
      {
        if i < |next.effects| {
          assert r.effects[i] == r.effects[..|next.effects|][i];
        }
      }
    }
  }

  /** A client silent since its last data is probed exactly four times,
      once by the initial timer and three times by the retry timer, and then
      its socket is ended; after only two retries it is still open. */
  lemma SilentClientEnded(w: Link, data: string, parse: string -> Option<Message>)
    ensures var q := AfterData(w, data, parse);
            var r := Silence(q, [InitialTimer, RetryTimer, RetryTimer, RetryTimer]);
            && r.ended
            && r.effects == q.effects + [Send(KeepAlive), Send(KeepAlive), Send(KeepAlive), Send(KeepAlive)]
            && (!w.ended ==> !Silence(q, [InitialTimer, RetryTimer, RetryTimer]).ended)
  {
    var q := AfterData(w, data, parse);
    var q1 := AfterInitialTimer(q);
    var q2 := AfterRetryTimer(q1);
    var q3 := AfterRetryTimer(q2);
    var q4 := AfterRetryTimer(q3);
    assert Silence(q, [InitialTimer, RetryTimer, RetryTimer, RetryTimer]) == q4 by {
      assert [InitialTimer, RetryTimer, RetryTimer, RetryTimer][1..] == [RetryTimer, RetryTimer, RetryTimer];
      assert [RetryTimer, RetryTimer, RetryTimer][1..] == [RetryTimer, RetryTimer];
      assert [RetryTimer, RetryTimer][1..] == [RetryTimer];
    }
    assert Silence(q, [InitialTimer, RetryTimer, RetryTimer]) == q3 by {
      assert [InitialTimer, RetryTimer, RetryTimer][1..] == [RetryTimer, RetryTimer];
      assert [RetryTimer, RetryTimer][1..] == [RetryTimer];
    }
  }

  /** Disconnecting, by `end` or by any error, removes the client from its
      lobby once and changes nothing else. */
  lemma DisconnectLeavesLobby(w: Link)
    ensures AfterDisconnect(w).(effects := w.effects) == w
    ensures AfterDisconnect(w).effects == w.effects + [LeaveLobby]
  {
  }

  // ---------------------------------------------------------------------------
  // Framing properties
  // ---------------------------------------------------------------------------

  /** Records before the first empty one are each handled, in order. */
  lemma {:induction false} DispatchedAppend(a: seq<string>, b: seq<string>, parse: string -> Option<Message>)
    requires forall i :: 0 <= i < |a| ==> a[i] != ""
    ensures Dispatched(a + b, parse) == Dispatched(a, parse) + Dispatched(b, parse)
    ensures |Dispatched(a, parse)| <= |a|
  {
    if a != [] {
      var h := HandleRecord(a[0], parse);
      TailAppend(a, b);
      DispatchedAppend(a[1..], b, parse);
      assert Dispatched(a + b, parse) == h + Dispatched(a[1..] + b, parse);
      assert Dispatched(a, parse) == h + Dispatched(a[1..], parse);
      AppendAssoc(h, Dispatched(a[1..], parse), Dispatched(b, parse));
    } else {
      AppendEmpty(b);
    }
  }

  /** One record more: an empty one ends the chunk, any other is handled
      after those before it. */
  lemma DispatchedStep(records: seq<string>, i: nat, parse: string -> Option<Message>)
    requires i < |records|
    requires forall j :: 0 <= j < i ==> records[j] != ""
    ensures records[i] == "" ==> Dispatched(records, parse) == Dispatched(records[..i], parse)
    ensures records[i] != "" ==>
              Dispatched(records[..i + 1], parse) == Dispatched(records[..i], parse) + HandleRecord(records[i], parse)
  {
    var a := records[..i];
    if records[i] == "" {
      DispatchedAppend(a, records[i..], parse);
      TakeDrop(records, i);
    } else {
      DispatchedAppend(a, [records[i]], parse);
      TakeSnoc(records, i);
      DispatchedOne(records[i], parse);
    }
  }

  lemma DispatchedOne(record: string, parse: string -> Option<Message>)
    requires record != ""
    ensures Dispatched([record], parse) == HandleRecord(record, parse)
  {
    var h := HandleRecord(record, parse);
    assert [record][1..] == [];
    assert Dispatched([record], parse) == h + Dispatched([], parse);
    AppendEmpty(h);
  }

  /** Everything after the first empty record of a chunk is dropped. */
  lemma DroppedAfterEmpty(a: seq<string>, b: seq<string>, parse: string -> Option<Message>)
    requires forall i :: 0 <= i < |a| ==> a[i] != ""
    ensures Dispatched(a + [""] + b, parse) == Dispatched(a, parse)
  {
    DispatchedAppend(a, [""] + b, parse);
    AppendAssoc(a, [""], b);
  }

  lemma {:induction false} JoinSnoc(records: seq<string>, c: char)
    requires |records| >= 1
    ensures Join(records + [""], c) == Join(records, c) + [c]
    decreases |records|
  {
    if |records| > 1 {
      TailAppend(records, [""]);
      JoinSnoc(records[1..], c);
    }
  }

  lemma FramedSplit(records: seq<string>)
    requires |records| >= 1
    requires forall i :: 0 <= i < |records| ==> '\n' !in records[i]
    ensures Split(Join(records, '\n') + "\n", '\n') == records + [""]
  {
    var framed := records + [""];
    JoinSnoc(records, '\n');
    forall k | 0 <= k < |framed| ensures '\n' !in framed[k] {
      if k < |records| { assert framed[k] == records[k]; }
    }
    SplitJoin(framed, '\n');
  }

  /** A chunk of non-empty records, each ended by a newline, has every
      record handled in order. */
  lemma NewlineFramedChunk(records: seq<string>, parse: string -> Option<Message>)
    requires |records| >= 1
    requires forall i :: 0 <= i < |records| ==> records[i] != "" && '\n' !in records[i]
    ensures Dispatched(Split(Join(records, '\n') + "\n", '\n'), parse) == Dispatched(records, parse)
  {
    FramedSplit(records);
    DroppedAtEnd(Join(records, '\n') + "\n", records, parse);
  }

  /** A chunk that splits into some records and a final empty one handles
      just those records. */
  lemma DroppedAtEnd(chunk: string, records: seq<string>, parse: string -> Option<Message>)
    requires forall i :: 0 <= i < |records| ==> records[i] != ""
    requires Split(chunk, '\n') == records + [""]
    ensures Dispatched(Split(chunk, '\n'), parse) == Dispatched(records, parse)
  {
    DroppedAfterEmpty(records, [], parse);
    AppendEmpty(records + [""]);
  }

  /** Two records separated by a blank line: only the first is handled. */
  lemma BlankLineDropsRest(first: string, rest: string, parse: string -> Option<Message>)
    requires first != "" && '\n' !in first && '\n' !in rest
    ensures Dispatched(Split(first + "\n\n" + rest, '\n'), parse) == HandleRecord(first, parse)
  {
    BlankLineSplit(first, rest);
    Triple(first, "", rest);
    DroppedAfterEmpty([first], [rest], parse);
    DispatchedOne(first, parse);
  }

  lemma BlankLineSplit(first: string, rest: string)
    requires '\n' !in first && '\n' !in rest
    ensures Split(first + "\n\n" + rest, '\n') == [first, "", rest]
  {
    var records := [first, "", rest];
    assert Join(["", rest], '\n') == "\n" + rest;
    assert Join(records, '\n') == first + "\n" + Join(["", rest], '\n');
    assert Join(records, '\n') == first + "\n\n" + rest;
    SplitJoin(records, '\n');
  }

  lemma Triple<T>(a: T, b: T, c: T)
    ensures [a] + [b] + [c] == [a, b, c]
  {
  }

  // ---------------------------------------------------------------------------
  // serializeAction
  // ---------------------------------------------------------------------------

  /** A field of an outgoing action: absent, null, or present with the text
      string interpolation gives its value. */
  datatype FieldValue = Undefined | Null | Present(text: string)

  /** The present fields, in entry order. */
  function Kept(entries: seq<(string, FieldValue)>): (r: seq<(string, string)>)
    ensures |r| <= |entries|
    decreases |entries|
  {
    if entries == [] then []
    else
      var last := entries[|entries| - 1];
      Kept(entries[..|entries| - 1]) + (if last.1.Present? then [(last.0, last.1.text)] else [])
  }

  /** Each kept field as `key:value`. */
  function Pairs(fields: seq<(string, string)>): (r: seq<string>)
    ensures |r| == |fields|
  {
    seq(|fields|, i requires 0 <= i < |fields| => fields[i].0 + ":" + fields[i].1)
  }

  /** `serializeAction`: the present fields as `key:value`, joined by ','. */
  function SerializeAction(entries: seq<(string, FieldValue)>): string
  {
    Join(Pairs(Kept(entries)), ',')
  }

  /** Dropping absent fields keeps the order of the others and splits over
      concatenation. */
  lemma {:induction false} KeptAppend(a: seq<(string, FieldValue)>, b: seq<(string, FieldValue)>)
    ensures Kept(a + b) == Kept(a) + Kept(b)
    decreases |b|
  {
    if b != [] {
      InitAppend(a, b);
      KeptAppend(a, b[..|b| - 1]);
    } else {
      AppendEmpty(a);
    }
  }

  /** An undefined or null field is dropped; a present one is kept as is. */
  lemma KeptOne(key: string, v: FieldValue)
    ensures Kept([(key, v)]) == if v.Present? then [(key, v.text)] else []
  {
    assert [(key, v)][..0] == [];
  }

  /** The serialized text splits back on ',' into the `key:value` pairs of
      the present fields, when no key or value holds a ',' and at least one
      field is present. */
  lemma SerializeSplits(entries: seq<(string, FieldValue)>)
    requires |Kept(entries)| >= 1
    requires forall i :: 0 <= i < |Kept(entries)| ==> ',' !in Kept(entries)[i].0 && ',' !in Kept(entries)[i].1
    ensures Split(SerializeAction(entries), ',') == Pairs(Kept(entries))
  {
    var fields := Kept(entries);
    forall i | 0 <= i < |fields| ensures ',' !in Pairs(fields)[i] {
      assert Pairs(fields)[i] == fields[i].0 + ":" + fields[i].1;
    }
    SplitJoin(Pairs(fields), ',');
  }

  // ---------------------------------------------------------------------------
  // stringToJson
  // ---------------------------------------------------------------------------

  /** A decoded field value; `Score(None)` stands for an InsaneInt with a
      NaN field. */
  datatype JsonValue = Flag(b: bool) | Num(n: real) | Score(score: Option<InsaneValue>) | Text(s: string) | Missing

  /** The value a present field decodes to: booleans first, then the
      `score` key as an InsaneInt, then numbers, and any other text as it
      is. */
  function Classify(key: string, value: string): (r: JsonValue)
    ensures r.Flag? <==> value == "true" || value == "false"
    ensures r.Score? <==> key == "score" && value != "true" && value != "false"
    ensures r.Text? ==> r.s == value && ParseNumber(value).None?
    ensures r.Num? ==> ParseNumber(value) == Some(r.n)
    ensures r.Flag? ==> r.b == (value == "true")
    ensures r.Score? ==> r.score == Parse(value)
    ensures !r.Missing?
    ensures !r.Flag? && !r.Score? ==> (r.Num? <==> ParseNumber(value).Some?)
  {
    if value == "true" || value == "false" then Flag(value == "true")
    else if key == "score" then Score(Parse(value))
    else match ParseNumber(value)
      case Some(n) => Num(n)
      case None => Text(value)
  }

  /** One ','-separated part, split at its first ':' into key and value
      (text after a second ':' is ignored). A part with no ':' has an
      undefined value, stored as such, except under the `score` key, where
      reading it throws (`None`). */
  function DecodePart(part: string): Option<(string, JsonValue)>
  {
    var halves := Split(part, ':');
    var key := halves[0];
    if |halves| >= 2 then Some((key, Classify(key, halves[1])))
    else if key == "score" then None
    else Some((key, Missing))
  }

  /** `obj[key] = v` on a plain object. The key `__proto__` reaches the
      inherited prototype setter, which ignores every value a part can
      decode to under that key (none is an object or `null`), so the object
      is left as it was. */
  function Assign(obj: map<string, JsonValue>, key: string, v: JsonValue): (r: map<string, JsonValue>)
    ensures key == "__proto__" ==> r == obj
    ensures key != "__proto__" ==> key in r && r[key] == v
    ensures forall k :: k != key ==> (k in r <==> k in obj)
    ensures forall k :: k != key && k in r ==> r[k] == obj[k]
  {
    if key == "__proto__" then obj else obj[key := v]
  }

  /** The object built from the parts, each assigning its key in turn. */
  function Decoded(parts: seq<string>): Option<map<string, JsonValue>>
  {
    if parts == [] then Some(map[])
    else
      match Decoded(parts[..|parts| - 1])
      case None => None
      case Some(obj) =>
        match DecodePart(parts[|parts| - 1])
        case None => None
        case Some(kv) => Some(Assign(obj, kv.0, kv.1))
  }

  /** Once a part throws, so does the whole text. */
  lemma {:induction false} DecodedThrows(parts: seq<string>, i: nat)
    requires i <= |parts| && Decoded(parts[..i]).None?
    ensures Decoded(parts).None?
    decreases |parts| - i
  {
    if i < |parts| {
      TakeSnoc(parts, i);
      DecodedThrows(parts, i + 1);
    } else {
      TakeAll(parts);
    }
  }

  /** One part more: it throws, or assigns its key in the object built so
      far. */
  lemma DecodedNext(parts: seq<string>, i: nat, obj: map<string, JsonValue>)
    requires i < |parts| && Decoded(parts[..i]) == Some(obj)
    ensures DecodePart(parts[i]).None? ==> Decoded(parts[..i + 1]).None?
    ensures DecodePart(parts[i]).Some? ==>
              Decoded(parts[..i + 1]) == Some(Assign(obj, DecodePart(parts[i]).value.0, DecodePart(parts[i]).value.1))
  {
    TakeSnoc(parts, i);
  }

  /** `stringToJson`: fills an object from the ','-separated parts, in
      order; `None` when reading a part throws. */
  method StringToJson(str: string) returns (r: Option<map<string, JsonValue>>)
    ensures r == Decoded(Split(str, ','))
  {
    var parts := Split(str, ',');
    var obj: map<string, JsonValue> := map[];
    for i := 0 to |parts|
      invariant Decoded(parts[..i]) == Some(obj)
    {
      DecodedNext(parts, i, obj);
      var halves := Split(parts[i], ':');
      var key := halves[0];
      if |halves| < 2 {
        if key == "score" {
          DecodedThrows(parts, i + 1);
          return None;
        }
        if key != "__proto__" {
          obj := obj[key := Missing];
        }
      } else if key != "__proto__" {
        obj := obj[key := Classify(key, halves[1])];
      }
    }
    TakeAll(parts);
    return Some(obj);
  }

  /** What a list of fields means as an object: each key bound to its
      decoded value, a later field overriding an earlier one; a field named
      `__proto__` binds nothing. */
  function Assigned(fields: seq<(string, string)>): map<string, JsonValue>
  {
    if fields == [] then map[]
    else
      var last := fields[|fields| - 1];
      Assign(Assigned(fields[..|fields| - 1]), last.0, Classify(last.0, last.1))
  }

  lemma PairSplits(key: string, value: string)
    requires ':' !in key && ':' !in value
    ensures Split(key + ":" + value, ':') == [key, value]
  {
    SplitPair(key, value, ':');
  }

  lemma {:induction false} DecodedPairs(fields: seq<(string, string)>)
    requires forall i :: 0 <= i < |fields| ==> ':' !in fields[i].0 && ':' !in fields[i].1
    ensures Decoded(Pairs(fields)) == Some(Assigned(fields))
    decreases |fields|
  {
    if fields != [] {
      var n := |fields| - 1;
      PairsInit(fields);
      DecodedPairs(fields[..n]);
      DecodePartPair(fields[n].0, fields[n].1);
    }
  }

  lemma PairsInit(fields: seq<(string, string)>)
    requires fields != []
    ensures Pairs(fields)[..|fields| - 1] == Pairs(fields[..|fields| - 1])
    ensures Pairs(fields)[|fields| - 1] == fields[|fields| - 1].0 + ":" + fields[|fields| - 1].1
  {
    var n := |fields| - 1;
    assert Pairs(fields)[..n] == Pairs(fields[..n]);
  }

  lemma DecodePartPair(key: string, value: string)
    requires ':' !in key && ':' !in value
    ensures DecodePart(key + ":" + value) == Some((key, Classify(key, value)))
  {
    PairSplits(key, value);
  }

  /** Decoding a serialized action gives back its present fields, each
      decoded by its text, provided at least one field is present and no
      key or value holds a ',' or ':'. */
  lemma SerializeDecodes(entries: seq<(string, FieldValue)>)
    requires |Kept(entries)| >= 1
    requires forall i :: 0 <= i < |Kept(entries)| ==>
               && ',' !in Kept(entries)[i].0 && ',' !in Kept(entries)[i].1
               && ':' !in Kept(entries)[i].0 && ':' !in Kept(entries)[i].1
    ensures Decoded(Split(SerializeAction(entries), ',')) == Some(Assigned(Kept(entries)))
  {
    SerializeSplits(entries);
    DecodedPairs(Kept(entries));
  }

  /** A `__proto__` part is dropped: whatever follows the key, the part
      leaves the object as it was. */
  lemma {:induction false} ProtoKeyDropped(parts: seq<string>, value: string)
    requires ':' !in value
    ensures Decoded(parts + ["__proto__:" + value]) == Decoded(parts)
  {
    var whole := parts + ["__proto__:" + value];
    assert whole[..|whole| - 1] == parts;
    assert "__proto__:" + value == "__proto__" + ":" + value;
    DecodePartPair("__proto__", value);
  }

  /** An action with no present field serializes to the empty text, which
      decodes to one undefined field under the empty key, not to an empty
      object. */
  lemma EmptyActionDecodes(entries: seq<(string, FieldValue)>)
    requires Kept(entries) == []
    ensures SerializeAction(entries) == ""
    ensures Decoded(Split("", ',')) == Some(map["" := Missing])
  {
    assert Split("", ',') == [""];
    assert [""][..0] == [];
  }

  lemma {:induction false} EsLacks(k: int, c: char)
    requires c != 'e'
    ensures c !in Es(k)
    decreases Max(k, 0)
  {
    if k > 0 {
      EsLacks(k - 1, c);
    }
  }

  /** The text of an InsaneInt holds only 'e', digits, '.' and '-'. */
  lemma RenderLacks(x: InsaneValue, c: char)
    requires c != 'e' && c != '.' && c != '-' && !IsDigit(c)
    ensures c !in Render(x)
  {
    EsLacks(x.startingECount, c);
    NumeralLacks(RenderNumber(x.coefficient), c);
    NumeralLacks(RenderNumber(x.exponent), c);
  }

  /** A score sent as text under the `score` key decodes to the same
      InsaneInt, when its wrap count is not negative and its numbers are
      finite decimals. */
  lemma ScoreFieldRoundTrip(x: InsaneValue)
    requires x.startingECount >= 0
    requires IsFiniteDecimal(x.coefficient) && IsFiniteDecimal(x.exponent)
    ensures ',' !in Render(x) && ':' !in Render(x)
    ensures Classify("score", Render(x)) == Score(Some(x))
  {
    RenderLacks(x, ',');
    RenderLacks(x, ':');
    RenderLacks(x, 't');
    RenderLacks(x, 'f');
    assert "true"[0] == 't' && "false"[0] == 'f';
    ParseRender(x);
  }

  // ---------------------------------------------------------------------------
  // scientificNotationToBigInt
  // ---------------------------------------------------------------------------

  /** `s.replace(c, "")`: the first occurrence of `c` removed. */
  function RemoveFirst(s: string, c: char): (r: string)
    ensures c in s ==> |r| == |s| - 1
    ensures c !in s ==> r == s
  {
    var i := IndexOf(s, c);
    if i == |s| then s else s[..i] + s[i + 1..]
  }

  /** `scientificNotationToBigInt`: the coefficient's digits without its
      point, times ten to the exponent less the number of fractional
      digits. `None` where the source throws: no 'e', text BigInt rejects, or
      a negative power of ten. */
  function ScientificToBigInt(value: string): Option<int>
  {
    var parts := Split(value, 'e');
    if |parts| < 2 then None
    else
      var coefficient := parts[0];
      var pieces := Split(coefficient, '.');
      var places := if |pieces| >= 2 then |pieces[1]| else 0;
      match ParseBigInt(RemoveFirst(coefficient, '.'))
      case None => None
      case Some(digits) =>
        match ParseBigInt(parts[1])
        case None => None
        case Some(exponent) =>
          if exponent - places < 0 then None
          else Some(digits * Pow10(exponent - places))
  }

  lemma NotationParts(whole: string, frac: string, exponent: string)
    requires AllDigits(whole) && AllDigits(frac) && AllDigits(exponent)
    ensures Split(whole + "." + frac + "e" + exponent, 'e') == [whole + "." + frac, exponent]
    ensures Split(whole + "." + frac, '.') == [whole, frac]
    ensures RemoveFirst(whole + "." + frac, '.') == whole + frac
  {
    DigitsLack(whole, 'e');
    DigitsLack(frac, 'e');
    DigitsLack(exponent, 'e');
    DigitsLack(whole, '.');
    DigitsLack(frac, '.');
    SplitPair(whole + "." + frac, exponent, 'e');
    SplitPair(whole, frac, '.');
    RemoveDot(whole, frac);
  }

  lemma RemoveDot(whole: string, frac: string)
    requires '.' !in whole
    ensures RemoveFirst(whole + "." + frac, '.') == whole + frac
  {
    var coefficient := whole + "." + frac;
    IndexOfPrefix(whole, frac, '.');
    assert coefficient[..|whole|] == whole;
    assert coefficient[|whole| + 1..] == frac;
  }

  /** `"c.f" + "e" + x` converts to the integer spelled by the digits of `c`
      and `f`, times `10^(x - |f|)`; it throws when `x` is below `|f|`. */
  lemma ScientificValue(whole: string, frac: string, x: nat)
    requires AllDigits(whole) && AllDigits(frac) && |whole| >= 1
    ensures AllDigits(whole + frac)
    ensures x >= |frac| ==> ScientificToBigInt(whole + "." + frac + "e" + NatToDigits(x))
                            == Some(DigitsValue(whole + frac) * Pow10(x - |frac|))
    ensures x < |frac| ==> ScientificToBigInt(whole + "." + frac + "e" + NatToDigits(x)).None?
  {
    var exponent := NatToDigits(x);
    AllDigitsAppend(whole, frac);
    NotationParts(whole, frac, exponent);
    DigitsRoundTrip(x);
    BigIntOfDigits(whole + frac);
    BigIntOfDigits(exponent);
    ScientificOfParts(whole + "." + frac + "e" + exponent, whole + "." + frac, whole + frac, frac, exponent, x);
  }

  lemma ScientificOfParts(value: string, coefficient: string, digits: string, frac: string, exponent: string, x: nat)
    requires Split(value, 'e') == [coefficient, exponent]
    requires |Split(coefficient, '.')| == 2 && Split(coefficient, '.')[1] == frac
    requires RemoveFirst(coefficient, '.') == digits
    requires AllDigits(digits) && ParseBigInt(digits) == Some(DigitsValue(digits) as int)
    requires ParseBigInt(exponent) == Some(x)
    ensures x >= |frac| ==> ScientificToBigInt(value) == Some(DigitsValue(digits) * Pow10(x - |frac|))
    ensures x < |frac| ==> ScientificToBigInt(value).None?
  {
  }

  /** A run of digits reads as the number it spells. */
  lemma BigIntOfDigits(s: string)
    requires AllDigits(s) && |s| >= 1
    ensures ParseBigInt(s) == Some(DigitsValue(s) as int)
  {
  }

}
