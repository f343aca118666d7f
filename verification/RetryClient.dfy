/** The gRPC client's connection state and its retry loop. */
module RetryClient {
  import opened Options
  import opened Backoff
  import SingleFlight

  /** How a call of connectWithRetry ended; Deferred means another caller was already reconnecting. */
  datatype Outcome = Connected | Cancelled | Exhausted | Deferred

  class Client {
    const config: Config
    var connected: bool
    var conn: Option<nat>   // the open connection, by its number
    var dialed: nat         // connections opened so far
    var closed: nat         // connections closed so far
    var reconnecting: bool

    /** A connection is set exactly when the client is connected, and no opened connection is lost. */
    predicate Valid()
      reads this
    {
      (connected <==> conn.Some?) && dialed == closed + if connected then 1 else 0
    }

    /** The state the interleaving model speaks about; callers are not part of the object. */
    function Shared(): SingleFlight.State
      reads this
    {
      SingleFlight.State(connected, conn, dialed, closed, reconnecting, [])
    }

    constructor (c: Config)
      ensures Valid() && config == ApplyDefaults(c) && !connected && !reconnecting
    {
      config := ApplyDefaults(c);
      connected, conn, dialed, closed, reconnecting := false, None, 0, 0, false;
    }

    /** Dials unless already connected; a failed dial changes nothing. */
    method Connect(dialSucceeds: bool) returns (ok: bool)
      requires Valid()
      modifies this
      ensures Valid() && Shared() == SingleFlight.Connect(old(Shared()), dialSucceeds)
      ensures ok == connected == (old(connected) || dialSucceeds)
    {
      if connected {
        return true;
      }
      if !dialSucceeds {
        return false;
      }
      conn := Some(dialed);
      dialed := dialed + 1;
      connected := true;
      return true;
    }

    /** Drops the connection whether or not closing it reports an error. */
    method Disconnect(closeFails: bool) returns (ok: bool)
      requires Valid()
      modifies this
      ensures Valid() && Shared() == SingleFlight.Drop(old(Shared()))
      ensures !connected && conn == None && closed == dialed == old(dialed) && reconnecting == old(reconnecting)
      ensures ok <==> !old(connected) || !closeFails
    {
      if !connected {
        return true;
      }
      connected := false;
      if conn.Some? {
        conn := None;
        closed := closed + 1;
        if closeFails {
          return false;
        }
      }
      return true;
    }

    /**
     The retry loop without interference by other callers. Attempt a succeeds when dial(a); the context is
     done during the wait after attempt a when done(a).
     */
    method ConnectWithRetry(dial: nat -> bool, done: nat -> bool)
      returns (outcome: Outcome, attempts: nat, waits: seq<int>)
      requires Valid()
      modifies this
      ensures Valid()
      ensures old(reconnecting) <==> outcome == Deferred
      ensures reconnecting == old(reconnecting)
      ensures attempts == 0 || attempts <= config.maxRetries
      ensures waits == seq(|waits|, k requires 0 <= k < |waits| => DelayAt(config, k))
      ensures match outcome
              case Deferred => attempts == 0 && waits == [] && connected == old(connected) && conn == old(conn)
              case Connected => connected && attempts > 0 && |waits| == attempts - 1
                && (old(connected) ==> attempts == 1)
                && (!old(connected) ==> dial(attempts - 1))
                && forall a :: 0 <= a < attempts - 1 ==> !dial(a) && !done(a)
              case Cancelled => !connected && attempts > 0 && |waits| == attempts
                && done(attempts - 1) && (forall a :: 0 <= a < attempts - 1 ==> !done(a))
                && forall a :: 0 <= a < attempts ==> !dial(a)
              case Exhausted =>
                && |waits| == attempts && (attempts == config.maxRetries || (attempts == 0 && config.maxRetries < 0))
                && connected == old(connected && attempts == 0)
                && forall a :: 0 <= a < attempts ==> !dial(a) && !done(a)
    {
      waits := [];
      attempts := 0;
      if reconnecting {
        return Deferred, 0, [];
      }
      reconnecting := true;
      var delay := config.initialDelay;
      while attempts < config.maxRetries
        invariant Valid() && reconnecting
        invariant attempts == 0 || attempts <= config.maxRetries
        invariant connected == old(connected) && (attempts > 0 ==> !connected)
        invariant |waits| == attempts && delay == DelayAt(config, attempts)
        invariant waits == seq(|waits|, k requires 0 <= k < |waits| => DelayAt(config, k))
        invariant forall a :: 0 <= a < attempts ==> !dial(a) && !done(a)
      {
        var ok := Connect(dial(attempts));
        attempts := attempts + 1;
        if ok {
          reconnecting := false;
          return Connected, attempts, waits;
        }
        waits := waits + [delay];
        if done(attempts - 1) {
          reconnecting := false;
          return Cancelled, attempts, waits;
        }
        delay := Next(config, delay);
      }
      reconnecting := false;
      outcome := Exhausted;
    }
  }
}
