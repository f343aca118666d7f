/** The controller object. Its configuration is the caller's object, which construction extends in place. */
module GpioDevice {
  import opened Options
  import opened OpLimiter
  import opened GpioController
  import M = GpioMock

  class Config {
    var allowedPins: seq<int>
    var restrictedPins: seq<int>
    var defaultPullMode: string

    constructor (allowed: seq<int>, restricted: seq<int>, pull: string)
      ensures allowedPins == allowed && restrictedPins == restricted && defaultPullMode == pull
    {
      allowedPins, restrictedPins, defaultPullMode := allowed, restricted, pull;
    }
  }

  datatype Security = Security(level: Level, allowCritical: bool, maxConcurrentOps: int, operationTimeout: int,
                               allowedOperations: seq<string>)

  /** A linear search, as the loops over the pin lists are. */
  method Contains<T(==)>(items: seq<T>, item: T) returns (found: bool)
    ensures found <==> item in items
  {
    for i := 0 to |items|
      invariant item !in items[..i]
    {
      if items[i] == item {
        return true;
      }
    }
    return false;
  }

  class Controller {
    const config: Config
    const security: Security
    const impl: M.MockGpio
    var activePins: map<int, M.PinState>
    var activeOps: int
    var started: nat             // goroutines started so far, one per admission
    var sleeping: map<nat, int>  // those not yet run, with the time their sleep ends

    function Policy(): Policy
      reads config
    {
      GpioController.Policy.Policy(config.allowedPins, config.restrictedPins, config.defaultPullMode,
                                   security.allowCritical, security.maxConcurrentOps, security.operationTimeout,
                                   security.allowedOperations)
    }

    function State(): GpioController.Controller
      reads this, impl
    {
      GpioController.Controller(Limiter(activeOps, started, sleeping), activePins, impl.State())
    }

    constructor (c: Config, s: Security)
      modifies c
      ensures config == c && security == s && fresh(impl)
      ensures State() == FRESH
      ensures Policy() == SecureDefaults(old(PolicyOf(c, s)), s.level)
    {
      config, security := c, s;
      impl := new M.MockGpio();
      activePins, activeOps, started, sleeping := map[], 0, 0, map[];
      new;
      InitializeSecureDefaults();
    }

    method InitializeSecureDefaults()
      modifies config
      ensures Policy() == SecureDefaults(old(Policy()), security.level)
    {
      for i := 0 to |CRITICAL_PINS|
        invariant Policy() == old(Policy()).(restricted := WithCritical(old(config.restrictedPins), i))
      {
        var found := Contains(config.restrictedPins, CRITICAL_PINS[i]);
        if !found {
          config.restrictedPins := config.restrictedPins + [CRITICAL_PINS[i]];
        }
      }
      if security.level == Paranoid {
        config.allowedPins := PARANOID_ALLOWED;
        config.restrictedPins := config.restrictedPins + PARANOID_RESTRICTED;
      }
    }

    method CheckOperationLimits(now: int) returns (ok: bool)
      modifies this
      ensures (State(), ok) ==
              (var (l, ok) := Admit(old(State().limiter), security.maxConcurrentOps, security.operationTimeout, now);
               (old(State()).(limiter := l), ok))
    {
      if activeOps >= security.maxConcurrentOps {
        return false;
      }
      activeOps := activeOps + 1;
      sleeping := sleeping[started := now + security.operationTimeout];
      started := started + 1;
      return true;
    }

    /** The body of the goroutine of one admission, after its sleep. */
    method WakeSleeper(k: nat)
      requires k in sleeping
      modifies this
      ensures State() == old(State()).(limiter := Wake(old(State().limiter), k))
    {
      if activeOps > 0 {
        activeOps := activeOps - 1;
      }
      sleeping := sleeping - {k};
    }

    method IsPinAllowed(pin: int, operation: string, now: int) returns (err: Option<Error>)
      modifies this
      ensures (State().limiter, err) ==
              GpioController.IsPinAllowed(Policy(), old(State().limiter), pin, operation, now)
      ensures activePins == old(activePins)
    {
      var admitted := CheckOperationLimits(now);
      if !admitted {
        return Some(TooManyOperations);
      }
      var listed := Contains(security.allowedOperations, operation);
      if security.allowedOperations != [] && !listed {
        return Some(OperationNotAllowed);
      }
      var critical := Contains(CRITICAL_PINS, pin);
      if critical && !security.allowCritical {
        return Some(CriticalPin);
      }
      var restricted := Contains(config.restrictedPins, pin);
      if restricted {
        return Some(RestrictedPin);
      }
      if |config.allowedPins| > 0 {
        var allowed := Contains(config.allowedPins, pin);
        if !allowed {
          return Some(PinNotInAllowedList);
        }
      }
      if pin < 0 || pin > 27 {
        return Some(PinOutOfRange);
      }
      return None;
    }

    method ConfigurePin(config: M.PinConfig, now: int) returns (err: Option<Error>)
      modifies this, impl
      ensures (State(), err) == Guarded(Policy(), old(State()), DoConfigure(config), now)
      ensures security.allowedOperations != [] && "configure" !in security.allowedOperations ==>
                && State() == old(State()).(limiter := State().limiter)
                && (err == Some(TooManyOperations) || err == Some(OperationNotAllowed))
    {
      if security.allowedOperations != [] && "configure" !in security.allowedOperations {
        UnlistedRefused(Policy(), State(), DoConfigure(config), now);
      }
      err := IsPinAllowed(config.pin, "configure", now);
      if err.Some? {
        return;
      }
      var c := if config.pullMode == "" then config.(pullMode := this.config.defaultPullMode) else config;
      if c.pwmFrequency > 0 {
        if c.pwmFrequency > 40000 {
          return Some(BadPwm);
        }
        if c.pwmDutyCycle > 100 {
          return Some(BadPwm);
        }
      }
      var ok := impl.ConfigurePin(c);
      if !ok {
        return Some(BackendFailed);
      }
      activePins := activePins[c.pin := M.PinState(c.pin, c.direction, M.LOW, c.pullMode)];
    }

    method ReadPin(pin: int, now: int) returns (value: int, err: Option<Error>)
      modifies this, impl
      ensures (State(), err) == Guarded(Policy(), old(State()), DoRead(pin), now)
      ensures err == None ==> pin in State().mock.pins && value == State().mock.pins[pin].value
      ensures err.Some? ==> value == M.LOW
      ensures security.allowedOperations != [] && "read" !in security.allowedOperations ==>
                && State() == old(State()).(limiter := State().limiter)
                && (err == Some(TooManyOperations) || err == Some(OperationNotAllowed))
    {
      if security.allowedOperations != [] && "read" !in security.allowedOperations {
        UnlistedRefused(Policy(), State(), DoRead(pin), now);
      }
      value := M.LOW;
      err := IsPinAllowed(pin, "read", now);
      if err.Some? {
        return;
      }
      var v := impl.ReadPin(pin);
      if v == None {
        return M.LOW, Some(BackendFailed);
      }
      value := v.value;
      if pin in activePins {
        activePins := activePins[pin := activePins[pin].(value := value)];
      }
    }

    method WritePin(pin: int, value: int, now: int) returns (err: Option<Error>)
      modifies this, impl
      ensures (State(), err) == Guarded(Policy(), old(State()), DoWrite(pin, value), now)
      ensures security.allowedOperations != [] && "write" !in security.allowedOperations ==>
                && State() == old(State()).(limiter := State().limiter)
                && (err == Some(TooManyOperations) || err == Some(OperationNotAllowed))
    {
      if security.allowedOperations != [] && "write" !in security.allowedOperations {
        UnlistedRefused(Policy(), State(), DoWrite(pin, value), now);
      }
      err := IsPinAllowed(pin, "write", now);
      if err.Some? {
        return;
      }
      if pin in activePins && activePins[pin].direction != M.OUTPUT {
        return Some(NotAnOutput);
      }
      var ok := impl.WritePin(pin, value);
      if !ok {
        return Some(BackendFailed);
      }
      if pin in activePins {
        activePins := activePins[pin := activePins[pin].(value := value)];
      }
    }

    method SetPWM(pin: int, frequency: int, dutyCycle: int, now: int) returns (err: Option<Error>)
      modifies this, impl
      ensures (State(), err) == Guarded(Policy(), old(State()), DoSetPwm(pin, frequency, dutyCycle), now)
      ensures security.allowedOperations != [] && "pwm" !in security.allowedOperations ==>
                && State() == old(State()).(limiter := State().limiter)
                && (err == Some(TooManyOperations) || err == Some(OperationNotAllowed))
    {
      if security.allowedOperations != [] && "pwm" !in security.allowedOperations {
        UnlistedRefused(Policy(), State(), DoSetPwm(pin, frequency, dutyCycle), now);
      }
      err := IsPinAllowed(pin, "pwm", now);
      if err.Some? {
        return;
      }
      if frequency <= 0 || frequency > 40000 {
        return Some(BadPwm);
      }
      if dutyCycle < 0 || dutyCycle > 100 {
        return Some(BadPwm);
      }
      var ok := impl.SetPWM(pin, frequency, dutyCycle);
      if !ok {
        return Some(BackendFailed);
      }
    }

    method EnableInterrupt(pin: int, eventType: string, handler: nat, now: int) returns (err: Option<Error>)
      modifies this, impl
      ensures (State(), err) == Guarded(Policy(), old(State()), DoEnable(pin, eventType, handler), now)
      ensures security.allowedOperations != [] && "interrupt" !in security.allowedOperations ==>
                && State() == old(State()).(limiter := State().limiter)
                && (err == Some(TooManyOperations) || err == Some(OperationNotAllowed))
    {
      if security.allowedOperations != [] && "interrupt" !in security.allowedOperations {
        UnlistedRefused(Policy(), State(), DoEnable(pin, eventType, handler), now);
      }
      err := IsPinAllowed(pin, "interrupt", now);
      if err.Some? {
        return;
      }
      var ok := impl.EnableInterrupt(pin, eventType, handler);
      if !ok {
        return Some(BackendFailed);
      }
    }

    method DisableInterrupt(pin: int, now: int) returns (err: Option<Error>)
      modifies this, impl
      ensures (State(), err) == Guarded(Policy(), old(State()), DoDisable(pin), now)
      ensures security.allowedOperations != [] && "interrupt" !in security.allowedOperations ==>
                && State() == old(State()).(limiter := State().limiter)
                && (err == Some(TooManyOperations) || err == Some(OperationNotAllowed))
    {
      if security.allowedOperations != [] && "interrupt" !in security.allowedOperations {
        UnlistedRefused(Policy(), State(), DoDisable(pin), now);
      }
      err := IsPinAllowed(pin, "interrupt", now);
      if err.Some? {
        return;
      }
      impl.DisableInterrupt(pin);
    }

    /** Initialize and Close reset the backend and leave the cache. */
    method ResetBackend(now: int)
      modifies impl
      ensures State() == GpioController.Step(Policy(), old(State()), DoReset, now)
    {
      impl.Reset();
    }

    /** The cached pins, each once, in no particular order. */
    method ListConfiguredPins() returns (states: seq<M.PinState>)
      ensures |states| == |activePins|
      ensures forall s :: s in states <==> exists p :: p in activePins && activePins[p] == s
    {
      states := [];
      var todo := activePins.Keys;
      while todo != {}
        invariant todo <= activePins.Keys && |states| + |todo| == |activePins|
        invariant forall s :: s in states <==> exists p :: p in activePins && p !in todo && activePins[p] == s
        decreases |todo|
      {
        ghost var some := Member(todo);
        var p :| p in todo;
        todo := todo - {p};
        states := states + [activePins[p]];
      }
    }
  }

  function PolicyOf(c: Config, s: Security): Policy
    reads c
  {
    GpioController.Policy.Policy(c.allowedPins, c.restrictedPins, c.defaultPullMode, s.allowCritical,
                                 s.maxConcurrentOps, s.operationTimeout, s.allowedOperations)
  }

  /** In a coherent state the two listings hold the same pin states. */
  lemma ListingsAgree(c: GpioController.Controller, cached: seq<M.PinState>, backend: seq<M.PinState>)
    requires Coherent(c)
    requires |cached| == |c.activePins| && |backend| == |c.mock.pins|
    requires forall s :: s in cached <==> exists p :: p in c.activePins && c.activePins[p] == s
    requires forall s :: s in backend <==> s.pin in c.mock.pins && s == M.StateOf(s.pin, c.mock.pins[s.pin])
    ensures |cached| == |backend| && forall s :: s in cached <==> s in backend
  {
    assert |c.activePins.Keys| == |c.mock.pins.Keys|;
    forall s ensures s in cached <==> s in backend {
      if s in backend { assert c.activePins[s.pin] == s; }
    }
  }
}
