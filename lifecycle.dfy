/**
 * The session that brings the access point up and down, as an abstract trace.
 *
 * The Wi-Fi Direct publisher and connection listener are hardware objects; here
 * they are one class whose fields are the state the program drives (publisher
 * status, advertisement settings, live callback registrations) and whose `log`
 * records every operation in the order it was issued.
 */
module Lifecycle {
  import opened Labels

  /** An event registration token, as returned when a callback is added. */
  type Token = nat

  /** The parsed command-line arguments. */
  datatype Args = Args(ssid: string, passphrase: string, websocketUrl: string, websocketPort: int, timeout: int)

  /** The publisher's advertisement settings. */
  datatype Advertisement = Advertisement(
    autonomousGroupOwner: bool,
    discoverability: Discoverability,
    legacyEnabled: bool,
    ssid: string,
    passphrase: string)

  /**
   * How the websocket server run ends. The server is meant to run until the
   * timeout; only a timeout is caught, so any other exception (a bind failure,
   * say) leaves the program without running the teardown.
   */
  datatype ServerEnd = Returned | TimedOut | Raised

  /** One operation on the publisher or the listener. */
  datatype Op =
    | AddStatusChanged(statusToken: Token)
    | SetAutonomousGroupOwner(enabled: bool)
    | SetDiscoverability(discoverability: Discoverability)
    | SetLegacyEnabled(legacyEnabled: bool)
    | SetSsid(ssid: string)
    | SetPassphrase(passphrase: string)
    | AddConnectionRequested(connectionToken: Token)
    | Start(advertised: Advertisement)
    | RunServer(url: string, port: int, timeout: int, end: ServerEnd)
    | Stop
    | RemoveConnectionRequested(removedConnection: Token)
    | RemoveStatusChanged(removedStatus: Token)

  /** Operations that register a callback or change an advertisement setting. */
  predicate IsSetup(op: Op) {
    op.AddStatusChanged? || op.SetAutonomousGroupOwner? || op.SetDiscoverability? || op.SetLegacyEnabled?
    || op.SetSsid? || op.SetPassphrase? || op.AddConnectionRequested?
  }

  /** The advertisement the program assigns before starting the publisher. */
  function Configured(args: Args): Advertisement
  {
    Advertisement(true, Intensive, true, args.ssid, args.passphrase)
  }

  /** How many times `op` was issued. */
  function Occurrences(trace: seq<Op>, op: Op): nat {
    if trace == [] then 0
    else (if trace[0] == op then 1 else 0) + Occurrences(trace[1..], op)
  }

  /** Some issue of `a` comes before some issue of `b`. */
  ghost predicate Precedes(trace: seq<Op>, a: Op, b: Op) {
    exists i, j :: 0 <= i < j < |trace| && trace[i] == a && trace[j] == b
  }

  /** Every removed token was obtained, earlier, by registering a callback of the same kind. */
  ghost predicate RemovesOnlyRegistered(trace: seq<Op>) {
    && (forall j :: 0 <= j < |trace| && trace[j].RemoveStatusChanged? ==>
          exists i :: 0 <= i < j && trace[i] == AddStatusChanged(trace[j].removedStatus))
    && (forall j :: 0 <= j < |trace| && trace[j].RemoveConnectionRequested? ==>
          exists i :: 0 <= i < j && trace[i] == AddConnectionRequested(trace[j].removedConnection))
  }

  /** The operations issued up to and including the publisher start. */
  function SetupTrace(args: Args, statusToken: Token, connectionToken: Token): seq<Op> {
    [ AddStatusChanged(statusToken),
      SetAutonomousGroupOwner(true),
      SetDiscoverability(Intensive),
      SetLegacyEnabled(true),
      SetSsid(args.ssid),
      SetPassphrase(args.passphrase),
      AddConnectionRequested(connectionToken),
      Start(Configured(args)) ]
  }

  /** The operations issued after the server run, when the run ends without an uncaught exception. */
  function TeardownTrace(statusToken: Token, connectionToken: Token): seq<Op> {
    [Stop, RemoveConnectionRequested(connectionToken), RemoveStatusChanged(statusToken)]
  }

  /** The whole trace of one run of the program. */
  function MainTrace(args: Args, end: ServerEnd, statusToken: Token, connectionToken: Token): seq<Op> {
    SetupTrace(args, statusToken, connectionToken)
    + [RunServer(args.websocketUrl, args.websocketPort, args.timeout, end)]
    + (if end.Raised? then [] else TeardownTrace(statusToken, connectionToken))
  }

  /**
   * The publisher and connection listener, with the operations the program issues
   * on them.
   */
  class AccessPoint {
    var status: PublisherStatus
    var advertisement: Advertisement
    var statusHandlers: set<Token>
    var connectionHandlers: set<Token>
    var nextStatusToken: Token
    var nextConnectionToken: Token
    var log: seq<Op>

    /**
     * Every live registration holds a token its object already handed out, so a
     * new token is fresh among that object's registrations. The publisher and
     * the listener hand out tokens independently, so their tokens may coincide.
     */
    ghost predicate Valid()
      reads this
    {
      && (forall t :: t in statusHandlers ==> t < nextStatusToken)
      && (forall t :: t in connectionHandlers ==> t < nextConnectionToken)
    }

    /** A new publisher carries the hardware's default advertisement settings. */
    constructor (initial: Advertisement)
      ensures Valid()
      ensures status == Created && advertisement == initial
      ensures statusHandlers == {} && connectionHandlers == {} && log == []
    {
      status := Created;
      advertisement := initial;
      statusHandlers := {};
      connectionHandlers := {};
      nextStatusToken := 0;
      nextConnectionToken := 0;
      log := [];
    }

    method AddStatusChangedHandler() returns (token: Token)
      requires Valid()
      modifies this
      ensures Valid()
      ensures token !in old(statusHandlers)
      ensures statusHandlers == old(statusHandlers) + {token}
      ensures connectionHandlers == old(connectionHandlers)
      ensures status == old(status) && advertisement == old(advertisement)
      ensures log == old(log) + [AddStatusChanged(token)]
    {
      token := nextStatusToken;
      nextStatusToken := nextStatusToken + 1;
      statusHandlers := statusHandlers + {token};
      log := log + [AddStatusChanged(token)];
    }

    method AddConnectionRequestedHandler() returns (token: Token)
      requires Valid()
      modifies this
      ensures Valid()
      ensures token !in old(connectionHandlers)
      ensures connectionHandlers == old(connectionHandlers) + {token}
      ensures statusHandlers == old(statusHandlers)
      ensures status == old(status) && advertisement == old(advertisement)
      ensures log == old(log) + [AddConnectionRequested(token)]
    {
      token := nextConnectionToken;
      nextConnectionToken := nextConnectionToken + 1;
      connectionHandlers := connectionHandlers + {token};
      log := log + [AddConnectionRequested(token)];
    }

    method SetAutonomousGroupOwnerEnabled(enabled: bool)
      requires Valid()
      modifies this
      ensures Valid()
      ensures advertisement == old(advertisement).(autonomousGroupOwner := enabled)
      ensures status == old(status)
      ensures statusHandlers == old(statusHandlers) && connectionHandlers == old(connectionHandlers)
      ensures log == old(log) + [SetAutonomousGroupOwner(enabled)]
    {
      advertisement := advertisement.(autonomousGroupOwner := enabled);
      log := log + [SetAutonomousGroupOwner(enabled)];
    }

    method SetListenStateDiscoverability(d: Discoverability)
      requires Valid()
      modifies this
      ensures Valid()
      ensures advertisement == old(advertisement).(discoverability := d)
      ensures status == old(status)
      ensures statusHandlers == old(statusHandlers) && connectionHandlers == old(connectionHandlers)
      ensures log == old(log) + [SetDiscoverability(d)]
    {
      advertisement := advertisement.(discoverability := d);
      log := log + [SetDiscoverability(d)];
    }

    method SetLegacyEnabled(enabled: bool)
      requires Valid()
      modifies this
      ensures Valid()
      ensures advertisement == old(advertisement).(legacyEnabled := enabled)
      ensures status == old(status)
      ensures statusHandlers == old(statusHandlers) && connectionHandlers == old(connectionHandlers)
      ensures log == old(log) + [Op.SetLegacyEnabled(enabled)]
    {
      advertisement := advertisement.(legacyEnabled := enabled);
      log := log + [Op.SetLegacyEnabled(enabled)];
    }

    method SetLegacySsid(ssid: string)
      requires Valid()
      modifies this
      ensures Valid()
      ensures advertisement == old(advertisement).(ssid := ssid)
      ensures status == old(status)
      ensures statusHandlers == old(statusHandlers) && connectionHandlers == old(connectionHandlers)
      ensures log == old(log) + [SetSsid(ssid)]
    {
      advertisement := advertisement.(ssid := ssid);
      log := log + [SetSsid(ssid)];
    }

    method SetLegacyPassphrase(password: string)
      requires Valid()
      modifies this
      ensures Valid()
      ensures advertisement == old(advertisement).(passphrase := password)
      ensures status == old(status)
      ensures statusHandlers == old(statusHandlers) && connectionHandlers == old(connectionHandlers)
      ensures log == old(log) + [SetPassphrase(password)]
    {
      advertisement := advertisement.(passphrase := password);
      log := log + [SetPassphrase(password)];
    }

    method StartPublisher()
      requires Valid()
      modifies this
      ensures Valid()
      ensures status == Started
      ensures advertisement == old(advertisement)
      ensures statusHandlers == old(statusHandlers) && connectionHandlers == old(connectionHandlers)
      ensures log == old(log) + [Start(advertisement)]
    {
      status := Started;
      log := log + [Start(advertisement)];
    }

    /** The websocket server run; its only effect on this state is that it happened and how it ended. */
    method RunWebsocketServer(args: Args, end: ServerEnd)
      requires Valid()
      modifies this
      ensures Valid()
      ensures status == old(status) && advertisement == old(advertisement)
      ensures statusHandlers == old(statusHandlers) && connectionHandlers == old(connectionHandlers)
      ensures log == old(log) + [RunServer(args.websocketUrl, args.websocketPort, args.timeout, end)]
    {
      log := log + [RunServer(args.websocketUrl, args.websocketPort, args.timeout, end)];
    }

    method StopPublisher()
      requires Valid()
      modifies this
      ensures Valid()
      ensures status == Stopped
      ensures advertisement == old(advertisement)
      ensures statusHandlers == old(statusHandlers) && connectionHandlers == old(connectionHandlers)
      ensures log == old(log) + [Stop]
    {
      status := Stopped;
      log := log + [Stop];
    }

    method RemoveConnectionRequestedHandler(token: Token)
      requires Valid()
      modifies this
      ensures Valid()
      ensures connectionHandlers == old(connectionHandlers) - {token}
      ensures statusHandlers == old(statusHandlers)
      ensures status == old(status) && advertisement == old(advertisement)
      ensures log == old(log) + [RemoveConnectionRequested(token)]
    {
      connectionHandlers := connectionHandlers - {token};
      log := log + [RemoveConnectionRequested(token)];
    }

    method RemoveStatusChangedHandler(token: Token)
      requires Valid()
      modifies this
      ensures Valid()
      ensures statusHandlers == old(statusHandlers) - {token}
      ensures connectionHandlers == old(connectionHandlers)
      ensures status == old(status) && advertisement == old(advertisement)
      ensures log == old(log) + [RemoveStatusChanged(token)]
    {
      statusHandlers := statusHandlers - {token};
      log := log + [RemoveStatusChanged(token)];
    }
  }

  /**
   * One run of the program, from creating the publisher to removing the
   * callbacks. When the server run ends by an uncaught exception the program
   * stops there and the publisher is left started with both callbacks live.
   */
  method RunMain(args: Args, initial: Advertisement, end: ServerEnd)
    returns (ap: AccessPoint, statusToken: Token, connectionToken: Token)
    ensures fresh(ap) && ap.Valid()
    ensures ap.log == MainTrace(args, end, statusToken, connectionToken)
    ensures ap.advertisement == Configured(args)
    ensures !end.Raised? ==> ap.status == Stopped && ap.statusHandlers == {} && ap.connectionHandlers == {}
    ensures end.Raised? ==>
      ap.status == Started && ap.statusHandlers == {statusToken} && ap.connectionHandlers == {connectionToken}
  {
    ap := new AccessPoint(initial);
    statusToken := ap.AddStatusChangedHandler();
    ap.SetAutonomousGroupOwnerEnabled(true);
    ap.SetListenStateDiscoverability(Intensive);
    ap.SetLegacyEnabled(true);
    ap.SetLegacySsid(args.ssid);
    ap.SetLegacyPassphrase(args.passphrase);
    connectionToken := ap.AddConnectionRequestedHandler();
    ap.StartPublisher();
    ap.RunWebsocketServer(args, end);
    if end.Raised? {
      return;
    }
    ap.StopPublisher();
    ap.RemoveConnectionRequestedHandler(connectionToken);
    ap.RemoveStatusChangedHandler(statusToken);
  }

  /**
   * When the only start sits between `before` and `after`, and nothing in
   * `after` is setup, no setup operation follows any start in the trace.
   */
  lemma {:induction false} NothingSetUpAfterStart(before: seq<Op>, start: Op, after: seq<Op>)
    requires start.Start?
    requires forall op :: op in before ==> !op.Start?
    requires forall op :: op in after ==> !op.Start? && !IsSetup(op)
    ensures var trace := before + [start] + after;
      forall i, j :: 0 <= i < j < |trace| && trace[i].Start? ==> !IsSetup(trace[j])
  {
    var trace := before + [start] + after;
    forall i, j | 0 <= i < j < |trace| && trace[i].Start?
      ensures !IsSetup(trace[j])
    {
      assert trace[j] == after[j - |before| - 1];
    }
  }

  /**
   * The publisher is started exactly once, with the configured advertisement, and
   * nothing is registered or reconfigured after that.
   */
  lemma StartOnceAfterSetup(args: Args, end: ServerEnd, statusToken: Token, connectionToken: Token)
    ensures var trace := MainTrace(args, end, statusToken, connectionToken);
      && Occurrences(trace, Start(Configured(args))) == 1
      && (forall op :: op in trace && op.Start? ==> op == Start(Configured(args)))
      && (forall i, j :: 0 <= i < j < |trace| && trace[i].Start? ==> !IsSetup(trace[j]))
  {
    var trace := MainTrace(args, end, statusToken, connectionToken);
    var setup := SetupTrace(args, statusToken, connectionToken);
    var start := Start(Configured(args));
    assert trace == setup[..7] + [start] + trace[8..];
    NothingSetUpAfterStart(setup[..7], start, trace[8..]);
    OnceIn(setup[..7], start, trace[8..]);
  }

  /**
   * Whenever the publisher starts, its advertisement has the autonomous group
   * owner on, discoverability INTENSIVE, legacy mode on, and the SSID and
   * passphrase given on the command line, whatever the hardware defaults were.
   */
  lemma StartsWithConfiguredAdvertisement(args: Args, end: ServerEnd, statusToken: Token, connectionToken: Token)
    ensures forall op :: op in MainTrace(args, end, statusToken, connectionToken) && op.Start? ==>
      && op.advertised.autonomousGroupOwner
      && op.advertised.discoverability == Intensive
      && op.advertised.legacyEnabled
      && op.advertised.ssid == args.ssid
      && op.advertised.passphrase == args.passphrase
  {
    StartOnceAfterSetup(args, end, statusToken, connectionToken);
  }

  /**
   * Both callbacks are registered and every advertisement setting is assigned,
   * each exactly once, before the publisher starts.
   */
  lemma SetupOnceBeforeStart(args: Args, end: ServerEnd, statusToken: Token, connectionToken: Token)
    ensures var trace := MainTrace(args, end, statusToken, connectionToken);
      forall op :: op in SetupTrace(args, statusToken, connectionToken)[..7] ==>
        Occurrences(trace, op) == 1 && Precedes(trace, op, Start(Configured(args)))
  {
    var trace := MainTrace(args, end, statusToken, connectionToken);
    var setup := SetupTrace(args, statusToken, connectionToken);
    forall op | op in setup[..7]
      ensures Occurrences(trace, op) == 1 && Precedes(trace, op, Start(Configured(args)))
    {
      var k :| 0 <= k < 7 && setup[k] == op;
      assert trace[k] == op && trace[7] == Start(Configured(args));
      SetupOpOnce(args, end, statusToken, connectionToken, k);
    }
  }

  /** Counting distributes over concatenation. */
  lemma {:induction false} OccurrencesAppend(a: seq<Op>, b: seq<Op>, op: Op)
    ensures Occurrences(a + b, op) == Occurrences(a, op) + Occurrences(b, op)
  {
    if a == [] {
      assert a + b == b;
    } else {
      assert (a + b)[1..] == a[1..] + b;
      OccurrencesAppend(a[1..], b, op);
    }
  }

  /** An operation that is not in the trace occurs zero times. */
  lemma {:induction false} NotIssued(trace: seq<Op>, op: Op)
    requires op !in trace
    ensures Occurrences(trace, op) == 0
  {
    if trace != [] {
      assert trace[0] != op;
      assert op !in trace[1..] by {
        assert forall x :: x in trace[1..] ==> x in trace;
      }
      NotIssued(trace[1..], op);
    }
  }

  /** An operation issued once between two stretches that never issue it occurs exactly once. */
  lemma OnceIn(before: seq<Op>, op: Op, after: seq<Op>)
    requires op !in before && op !in after
    ensures Occurrences(before + [op] + after, op) == 1
  {
    OccurrencesAppend(before + [op], after, op);
    OccurrencesAppend(before, [op], op);
    NotIssued(before, op);
    NotIssued(after, op);
  }

  /** The setup operation at position `k` is issued exactly once in a run. */
  lemma SetupOpOnce(args: Args, end: ServerEnd, statusToken: Token, connectionToken: Token, k: nat)
    requires k < 7
    ensures Occurrences(MainTrace(args, end, statusToken, connectionToken),
                        SetupTrace(args, statusToken, connectionToken)[k]) == 1
  {
    var trace := MainTrace(args, end, statusToken, connectionToken);
    var setup := SetupTrace(args, statusToken, connectionToken);
    var op := setup[k];
    var rest := trace[8..];
    assert trace == setup + rest;
    assert op !in rest;
    OccurrencesAppend(setup, rest, op);
    NotIssued(rest, op);
    assert setup == setup[..k] + [op] + setup[k + 1..];
    assert op !in setup[..k] && op !in setup[k + 1..] by {
      assert forall i :: 0 <= i < 8 && i != k ==> setup[i] != op;
    }
    OnceIn(setup[..k], op, setup[k + 1..]);
  }

  /**
   * After a run that ends normally or by timeout, the publisher is stopped and
   * each callback removed exactly once.
   */
  lemma TeardownExactlyOnce(args: Args, end: ServerEnd, statusToken: Token, connectionToken: Token)
    requires !end.Raised?
    ensures var trace := MainTrace(args, end, statusToken, connectionToken);
      && Occurrences(trace, Stop) == 1
      && Occurrences(trace, RemoveConnectionRequested(connectionToken)) == 1
      && Occurrences(trace, RemoveStatusChanged(statusToken)) == 1
  {
    var trace := MainTrace(args, end, statusToken, connectionToken);
    var upToRun := trace[..9];
    var stop, removeConnection, removeStatus :=
      Stop, RemoveConnectionRequested(connectionToken), RemoveStatusChanged(statusToken);
    assert forall op :: op in upToRun ==> !op.Stop? && !op.RemoveConnectionRequested? && !op.RemoveStatusChanged?;
    assert trace == upToRun + [stop] + [removeConnection, removeStatus];
    OnceIn(upToRun, stop, [removeConnection, removeStatus]);
    assert trace == (upToRun + [stop]) + [removeConnection] + [removeStatus];
    OnceIn(upToRun + [stop], removeConnection, [removeStatus]);
    assert trace == (upToRun + [stop, removeConnection]) + [removeStatus] + [];
    OnceIn(upToRun + [stop, removeConnection], removeStatus, []);
  }

  /**
   * The teardown follows the server run, in order: stop the publisher, then
   * remove the connection callback, then the status callback.
   */
  lemma TeardownInOrder(args: Args, end: ServerEnd, statusToken: Token, connectionToken: Token)
    requires !end.Raised?
    ensures var trace := MainTrace(args, end, statusToken, connectionToken);
      && Precedes(trace, RunServer(args.websocketUrl, args.websocketPort, args.timeout, end), Stop)
      && Precedes(trace, Stop, RemoveConnectionRequested(connectionToken))
      && Precedes(trace, RemoveConnectionRequested(connectionToken), RemoveStatusChanged(statusToken))
  {
    var trace := MainTrace(args, end, statusToken, connectionToken);
    assert trace[8] == RunServer(args.websocketUrl, args.websocketPort, args.timeout, end);
    assert trace[9] == Stop;
    assert trace[10] == RemoveConnectionRequested(connectionToken);
    assert trace[11] == RemoveStatusChanged(statusToken);
  }

  /** When the server run raises, the publisher is never stopped and no callback is removed. */
  lemma RaisedSkipsTeardown(args: Args, statusToken: Token, connectionToken: Token)
    ensures var trace := MainTrace(args, Raised, statusToken, connectionToken);
      && Occurrences(trace, Stop) == 0
      && forall op :: op in trace ==> !op.RemoveConnectionRequested? && !op.RemoveStatusChanged?
  {
    NotIssued(MainTrace(args, Raised, statusToken, connectionToken), Stop);
  }

  /** Each token the program removes is the one it was handed when it registered that callback. */
  lemma RemovedTokensWereRegistered(args: Args, end: ServerEnd, statusToken: Token, connectionToken: Token)
    ensures RemovesOnlyRegistered(MainTrace(args, end, statusToken, connectionToken))
  {
    var trace := MainTrace(args, end, statusToken, connectionToken);
    assert trace[0] == AddStatusChanged(statusToken);
    assert trace[6] == AddConnectionRequested(connectionToken);
    forall j | 0 <= j < |trace| && (trace[j].RemoveStatusChanged? || trace[j].RemoveConnectionRequested?)
      ensures j >= 10
    {
      assert trace[j] in trace[10..];
    }
  }
}
