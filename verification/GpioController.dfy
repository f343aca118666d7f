/**
 The GPIO controller in mock mode: its pin filter, its admission counter and the activePins cache it
 keeps beside the backend's pins. Each operation is one step; logging and time stamps are left out.
 */
module GpioController {
  import opened Options
  import opened OpLimiter
  import M = GpioMock

  const CRITICAL_PINS: seq<int> := [0, 1, 14, 15]
  const PARANOID_ALLOWED: seq<int> := [18, 19, 20, 21]
  const PARANOID_RESTRICTED: seq<int> := [2, 3, 4, 5, 6, 7, 8, 9, 10, 11, 12, 13, 16, 17, 22, 23, 24, 25, 26, 27]

  datatype Level = Permissive | Strict | Paranoid

  /** The configuration the checks read: the pin lists and the security settings. */
  datatype Policy = Policy(allowed: seq<int>, restricted: seq<int>, defaultPull: string,
                           allowCritical: bool, maxOps: int, timeout: int, operations: seq<string>)

  datatype Error =
    | TooManyOperations
    | OperationNotAllowed
    | CriticalPin
    | RestrictedPin
    | PinNotInAllowedList
    | PinOutOfRange
    | BadPwm
    | NotAnOutput
    | BackendFailed

  // ----- secure defaults

  function WithCritical(restricted: seq<int>, n: nat): seq<int>
    requires n <= |CRITICAL_PINS|
  {
    if n == 0 then restricted
    else
      var r := WithCritical(restricted, n - 1);
      if CRITICAL_PINS[n - 1] in r then r else r + [CRITICAL_PINS[n - 1]]
  }

  function SecureDefaults(p: Policy, level: Level): Policy {
    var r := WithCritical(p.restricted, |CRITICAL_PINS|);
    if level == Paranoid then p.(allowed := PARANOID_ALLOWED, restricted := r + PARANOID_RESTRICTED)
    else p.(restricted := r)
  }

  lemma {:induction false} WithCriticalExtends(restricted: seq<int>, n: nat)
    requires n <= |CRITICAL_PINS|
    ensures restricted <= WithCritical(restricted, n)
    ensures forall i :: 0 <= i < n ==> CRITICAL_PINS[i] in WithCritical(restricted, n)
    ensures forall x :: x in WithCritical(restricted, n) ==> x in restricted || x in CRITICAL_PINS
  {
    if n > 0 { WithCriticalExtends(restricted, n - 1); }
  }

  lemma CriticalPinsAre()
    ensures forall x :: x in CRITICAL_PINS <==> x in {0, 1, 14, 15}
  {
    var c := CRITICAL_PINS;
    assert c[0] == 0 && c[1] == 1 && c[2] == 14 && c[3] == 15;
  }

  lemma ParanoidAllowedAre()
    ensures PARANOID_ALLOWED != [] && forall x :: x in PARANOID_ALLOWED <==> 18 <= x <= 21
  {
    var a := PARANOID_ALLOWED;
    assert a[0] == 18 && a[1] == 19 && a[2] == 20 && a[3] == 21;
  }

  lemma ParanoidRestrictedAre()
    ensures forall x :: x in PARANOID_RESTRICTED ==> 0 <= x <= 27 && !(18 <= x <= 21)
  {
    forall i | 0 <= i < |PARANOID_RESTRICTED|
      ensures 0 <= PARANOID_RESTRICTED[i] <= 27 && !(18 <= PARANOID_RESTRICTED[i] <= 21)
    {
    }
  }

  /** The defaults loop drops no restriction, and restricts every critical pin at every level. */
  lemma SecureDefaultsRestrict(p: Policy, level: Level)
    ensures p.restricted <= SecureDefaults(p, level).restricted
    ensures forall x :: x in {0, 1, 14, 15} ==> x in SecureDefaults(p, level).restricted
    ensures forall x :: x in SecureDefaults(p, level).allowed <==>
              if level == Paranoid then 18 <= x <= 21 else x in p.allowed
    ensures (SecureDefaults(p, level).allowed == []) == (level != Paranoid && p.allowed == [])
    ensures forall x :: x in SecureDefaults(p, level).restricted ==>
              x in p.restricted || x in {0, 1, 14, 15} || (level == Paranoid && 0 <= x <= 27 && !(18 <= x <= 21))
    ensures SecureDefaults(p, level).(allowed := p.allowed, restricted := p.restricted) == p
  {
    WithCriticalExtends(p.restricted, |CRITICAL_PINS|);
    CriticalPinsAre();
    ParanoidAllowedAre();
    ParanoidRestrictedAre();
    forall x | x in {0, 1, 14, 15} ensures x in SecureDefaults(p, level).restricted {
      assert x in CRITICAL_PINS;
    }
  }

  // ----- the pin filter

  /** The checks of IsPinAllowed after the admission counter, in their order. */
  function Check(p: Policy, pin: int, operation: string): Option<Error> {
    if p.operations != [] && operation !in p.operations then Some(OperationNotAllowed)
    else if pin in CRITICAL_PINS && !p.allowCritical then Some(CriticalPin)
    else if pin in p.restricted then Some(RestrictedPin)
    else if p.allowed != [] && pin !in p.allowed then Some(PinNotInAllowedList)
    else if pin < 0 || pin > 27 then Some(PinOutOfRange)
    else None
  }

  ghost predicate Permitted(p: Policy, pin: int) {
    0 <= pin <= 27 && pin !in p.restricted && (p.allowed != [] ==> pin in p.allowed)
  }

  /**
   The filter's meaning: an operation on the caller's list, if there is one, and a pin from 0 to 27 that is
   neither restricted by the caller nor critical, whatever AllowCriticalPins says, and allowed: by the
   caller's list if there is one, at paranoid level from 18 to 21.
   */
  lemma CheckMeaning(p: Policy, level: Level, pin: int, operation: string)
    ensures Check(SecureDefaults(p, level), pin, operation) == None <==>
            && (p.operations == [] || operation in p.operations)
            && 0 <= pin <= 27 && pin !in p.restricted && pin !in {0, 1, 14, 15}
            && if level == Paranoid then 18 <= pin <= 21 else p.allowed == [] || pin in p.allowed
  {
    SecureDefaultsRestrict(p, level);
    CriticalPinsAre();
  }

  /** The reason of a refusal is the first of the checks that fails. */
  lemma CheckReasons(p: Policy, pin: int, operation: string)
    ensures var refused := Check(p, pin, operation);
            var listed := p.operations == [] || operation in p.operations;
            var critical := pin in {0, 1, 14, 15} && !p.allowCritical;
            var restricted := pin in p.restricted;
            var allowed := p.allowed == [] || pin in p.allowed;
            && (refused == Some(OperationNotAllowed) <==> !listed)
            && (refused == Some(CriticalPin) <==> listed && critical)
            && (refused == Some(RestrictedPin) <==> listed && !critical && restricted)
            && (refused == Some(PinNotInAllowedList) <==> listed && !critical && !restricted && !allowed)
            && (refused == Some(PinOutOfRange) <==>
                listed && !critical && !restricted && allowed && !(0 <= pin <= 27))
            && (refused == None <==> listed && !critical && !restricted && allowed && 0 <= pin <= 27)
  {
    CriticalPinsAre();
  }

  // ----- the operations

  /** The controller's own state and that of its backend. */
  datatype Controller = Controller(limiter: Limiter, activePins: map<int, M.PinState>, mock: M.Mock)

  const FRESH := Controller(IDLE, map[], M.BLANK)

  datatype Op =
    | DoConfigure(config: M.PinConfig)
    | DoRead(pin: int)
    | DoWrite(pin: int, value: int)
    | DoSetPwm(pin: int, frequency: int, dutyCycle: int)
    | DoQuery(pin: int)                                        // GetPinState, ReadAnalog
    | DoEnable(pin: int, eventType: string, handler: nat)
    | DoDisable(pin: int)
    | DoReset                                                  // Initialize, Close
    | DoWake(admission: nat)                                   // a sleeping goroutine

  function NameOf(op: Op): string {
    match op
    case DoConfigure(_) => "configure"
    case DoRead(_) => "read"
    case DoQuery(_) => "read"
    case DoWrite(_, _) => "write"
    case DoSetPwm(_, _, _) => "pwm"
    case _ => "interrupt"
  }

  function PinOf(op: Op): int
    requires !op.DoReset? && !op.DoWake?
  {
    if op.DoConfigure? then op.config.pin else op.pin
  }

  /** The slot is taken before any check, so a refused operation holds it as well. */
  function IsPinAllowed(p: Policy, l: Limiter, pin: int, operation: string, now: int): (Limiter, Option<Error>) {
    var (admitted, ok) := Admit(l, p.maxOps, p.timeout, now);
    if !ok then (l, Some(TooManyOperations)) else (admitted, Check(p, pin, operation))
  }

  function ConfigurePin(p: Policy, c: Controller, config: M.PinConfig): (Controller, Option<Error>) {
    var config := if config.pullMode == "" then config.(pullMode := p.defaultPull) else config;
    if config.pwmFrequency > 40000 || (config.pwmFrequency > 0 && config.pwmDutyCycle > 100) then (c, Some(BadPwm))
    else match M.Configure(c.mock, config)
      case None => (c, Some(BackendFailed))
      case Some(m) =>
        var state := M.PinState(config.pin, config.direction, M.LOW, config.pullMode);
        (c.(mock := m, activePins := c.activePins[config.pin := state]), None)
  }

  function WithValue(active: map<int, M.PinState>, pin: int, value: int): map<int, M.PinState> {
    if pin in active then active[pin := active[pin].(value := value)] else active
  }

  function ReadPin(c: Controller, pin: int): (Controller, Option<Error>) {
    match M.Read(c.mock, pin)
    case None => (c, Some(BackendFailed))
    case Some(v) => (c.(activePins := WithValue(c.activePins, pin, v)), None)
  }

  function WritePin(c: Controller, pin: int, value: int): (Controller, Option<Error>) {
    if pin in c.activePins && c.activePins[pin].direction != M.OUTPUT then (c, Some(NotAnOutput))
    else match M.Write(c.mock, pin, value)
      case None => (c, Some(BackendFailed))
      case Some(m) => (c.(mock := m, activePins := WithValue(c.activePins, pin, value)), None)
  }

  function SetPwm(c: Controller, pin: int, frequency: int, dutyCycle: int): (Controller, Option<Error>) {
    if frequency <= 0 || frequency > 40000 || dutyCycle < 0 || dutyCycle > 100 then (c, Some(BadPwm))
    else match M.SetPwm(c.mock, pin, frequency, dutyCycle)
      case None => (c, Some(BackendFailed))
      case Some(m) => (c.(mock := m), None)
  }

  function EnableInterrupt(c: Controller, pin: int, eventType: string, handler: nat): (Controller, Option<Error>) {
    match M.Enable(c.mock, pin, eventType, handler)
    case None => (c, Some(BackendFailed))
    case Some(m) => (c.(mock := m), None)
  }

  /** An operation once it is permitted. */
  function Perform(p: Policy, c: Controller, op: Op): (Controller, Option<Error>)
    requires !op.DoReset? && !op.DoWake?
  {
    match op
    case DoConfigure(config) => ConfigurePin(p, c, config)
    case DoRead(pin) => ReadPin(c, pin)
    case DoWrite(pin, v) => WritePin(c, pin, v)
    case DoSetPwm(pin, f, d) => SetPwm(c, pin, f, d)
    case DoQuery(_) => (c, None)
    case DoEnable(pin, t, h) => EnableInterrupt(c, pin, t, h)
    case DoDisable(pin) => (c.(mock := M.Disable(c.mock, pin)), None)
  }

  function Guarded(p: Policy, c: Controller, op: Op, now: int): (Controller, Option<Error>)
    requires !op.DoReset? && !op.DoWake?
  {
    var (l, denied) := IsPinAllowed(p, c.limiter, PinOf(op), NameOf(op), now);
    var admitted := c.(limiter := l);
    if denied.Some? then (admitted, denied) else Perform(p, admitted, op)
  }

  function Step(p: Policy, c: Controller, op: Op, now: int): Controller {
    if op.DoReset? then c.(mock := M.Cleared(c.mock))
    else if op.DoWake? then
      if op.admission in c.limiter.sleepers then c.(limiter := Wake(c.limiter, op.admission)) else c
    else Guarded(p, c, op, now).0
  }

  datatype Call = Call(op: Op, now: int)

  function Play(p: Policy, c: Controller, run: seq<Call>): Controller {
    if run == [] then c
    else
      var n := |run| - 1;
      Step(p, Play(p, c, run[..n]), run[n].op, run[n].now)
  }

  // ----- what an operation needs, and what it then does

  /**
   An operation whose name is not on the list of allowed operations is refused, for that or for want of a
   slot, and changes nothing but the counter.
   */
  lemma UnlistedRefused(p: Policy, c: Controller, op: Op, now: int)
    requires !op.DoReset? && !op.DoWake? && p.operations != []
    requires match op
             case DoConfigure(_) => "configure" !in p.operations
             case DoRead(_) => "read" !in p.operations
             case DoQuery(_) => "read" !in p.operations
             case DoWrite(_, _) => "write" !in p.operations
             case DoSetPwm(_, _, _) => "pwm" !in p.operations
             case _ => "interrupt" !in p.operations
    ensures var (after, err) := Guarded(p, c, op, now);
            && after == c.(limiter := after.limiter)
            && (err == Some(TooManyOperations) || err == Some(OperationNotAllowed))
  {
  }

  /** The pin is from 0 to 27, not restricted, on the list if there is one, and critical only if these are allowed. */
  ghost predicate Open(p: Policy, pin: int) {
    && 0 <= pin <= 27 && pin !in p.restricted && (p.allowed == [] || pin in p.allowed)
    && (pin in {0, 1, 14, 15} ==> p.allowCritical)
  }

  /** What a permitted operation needs of its arguments, the cache and the backend. */
  predicate Accepted(c: Controller, op: Op) {
    match op
    case DoConfigure(g) =>
      g.pwmFrequency <= 40000 && (g.pwmFrequency > 0 ==> g.pwmDutyCycle <= 100) && 0 <= g.pin <= 40
    case DoRead(pin) => pin in c.mock.pins && c.mock.pins[pin].config.direction == "input"
    case DoWrite(pin, _) =>
      && (pin in c.activePins ==> c.activePins[pin].direction == "output")
      && pin in c.mock.pins && c.mock.pins[pin].config.direction == "output"
    case DoSetPwm(pin, f, d) =>
      && pin in c.mock.pins && c.mock.pins[pin].config.direction == "output"
      && 1 <= f <= 10000 && 0 <= d <= 100
    case DoEnable(pin, _, _) => pin in c.mock.pins
    case _ => true
  }

  lemma PerformVerdict(p: Policy, c: Controller, op: Op)
    requires !op.DoReset? && !op.DoWake?
    ensures Perform(p, c, op).1 == None <==> Accepted(c, op)
    ensures Perform(p, c, op).1.Some? ==> Perform(p, c, op).0 == c
  {
  }

  /** Which error a permitted operation ends with that is not accepted. */
  lemma PerformReason(p: Policy, c: Controller, op: Op)
    requires !op.DoReset? && !op.DoWake? && !Accepted(c, op)
    ensures Perform(p, c, op).1 == Some(
              match op
              case DoConfigure(g) =>
                if g.pwmFrequency > 40000 || (g.pwmFrequency > 0 && g.pwmDutyCycle > 100) then BadPwm else BackendFailed
              case DoWrite(pin, _) =>
                if pin in c.activePins && c.activePins[pin].direction != "output" then NotAnOutput else BackendFailed
              case DoSetPwm(_, f, d) =>
                if 1 <= f <= 40000 && 0 <= d <= 100 then BackendFailed else BadPwm
              case _ => BackendFailed)
  {
  }

  /** With a slot free, the name listed and the pin open, an operation does what it would do unguarded. */
  lemma ListedPerforms(p: Policy, c: Controller, op: Op, now: int)
    requires !op.DoReset? && !op.DoWake? && c.limiter.activeOps < p.maxOps
    requires p.operations == [] ||
             match op
             case DoConfigure(_) => "configure" in p.operations
             case DoRead(_) => "read" in p.operations
             case DoQuery(_) => "read" in p.operations
             case DoWrite(_, _) => "write" in p.operations
             case DoSetPwm(_, _, _) => "pwm" in p.operations
             case _ => "interrupt" in p.operations
    requires Open(p, if op.DoConfigure? then op.config.pin else op.pin)
    ensures exists l :: Guarded(p, c, op, now) == Perform(p, c.(limiter := l), op)
    ensures Guarded(p, c, op, now).1 == None <==> Accepted(c, op)
  {
    var (l, denied) := IsPinAllowed(p, c.limiter, PinOf(op), NameOf(op), now);
    CriticalPinsAre();
    assert denied == None;
    assert Guarded(p, c, op, now) == Perform(p, c.(limiter := l), op);
    PerformVerdict(p, c.(limiter := l), op);
  }

  /** A configured pin is cached and stored with value 0 and the requested pull mode, or the default for none. */
  lemma ConfigureEffect(p: Policy, c: Controller, g: M.PinConfig)
    requires Perform(p, c, DoConfigure(g)).1 == None
    ensures var after := Perform(p, c, DoConfigure(g)).0;
            var pull := if g.pullMode == "" then p.defaultPull else g.pullMode;
            && g.pin in after.mock.pins && after.mock.pins[g.pin].config == g.(pullMode := pull)
            && after.mock.pins[g.pin].value == 0
            && g.pin in after.activePins && after.activePins[g.pin] == M.PinState(g.pin, g.direction, 0, pull)
            && after.activePins - {g.pin} == c.activePins - {g.pin}
            && after.mock.pins - {g.pin} == c.mock.pins - {g.pin}
            && after.mock.(pins := c.mock.pins) == c.mock && after.limiter == c.limiter
  {
  }

  /** A read leaves the backend; it and a write leave the value in the cache, if the pin is there. */
  lemma ValueEffect(p: Policy, c: Controller, op: Op)
    requires (op.DoRead? || op.DoWrite?) && Perform(p, c, op).1 == None
    ensures var after := Perform(p, c, op).0;
            && after.activePins.Keys == c.activePins.Keys && after.limiter == c.limiter
            && (forall pin :: pin in c.activePins && pin != op.pin ==> after.activePins[pin] == c.activePins[pin])
            && (op.pin in c.activePins ==>
                  after.activePins[op.pin] == c.activePins[op.pin].(value := after.mock.pins[op.pin].value))
            && (op.DoRead? ==> after.mock == c.mock)
            && (op.DoWrite? ==> after.mock.pins[op.pin].value == op.value
                                && after.mock.pins[op.pin].config == c.mock.pins[op.pin].config
                                && after.mock.pins - {op.pin} == c.mock.pins - {op.pin})
  {
  }

  /** PWM and interrupts are passed on to the backend; the cache is left. */
  lemma PassedOn(p: Policy, c: Controller, op: Op)
    requires op.DoSetPwm? || op.DoEnable? || op.DoDisable?
    requires Perform(p, c, op).1 == None
    ensures var after := Perform(p, c, op).0;
            && after == c.(mock := after.mock)
            && match op
               case DoSetPwm(pin, f, d) => M.SetPwm(c.mock, pin, f, d) == Some(after.mock)
               case DoEnable(pin, t, h) => M.Enable(c.mock, pin, t, h) == Some(after.mock)
               case DoDisable(pin) => after.mock == M.Disable(c.mock, pin)
               case _ => false
  {
  }

  // ----- the cache agrees with the backend

  ghost predicate Coherent(c: Controller) {
    && c.activePins.Keys == c.mock.pins.Keys
    && forall p :: p in c.mock.pins ==> c.activePins[p] == M.StateOf(p, c.mock.pins[p])
  }

  /** Resetting the backend keeps the cache right only when no pin is active: the cache is not reset. */
  lemma ResetCoherentIffEmpty(p: Policy, c: Controller, now: int)
    ensures Coherent(Step(p, c, DoReset, now)) <==> c.activePins == map[]
  {
    assert c.activePins.Keys == {} <==> c.activePins == map[];
  }

  /** The call configures the pin: it is permitted, and the backend accepts it. */
  predicate Configures(p: Policy, c: Controller, call: Call, pin: int) {
    call.op.DoConfigure? && call.op.config.pin == pin && Guarded(p, c, call.op, call.now).1 == None
  }

  predicate EverConfigured(p: Policy, run: seq<Call>, pin: int) {
    run != [] &&
    var before, call := run[..|run| - 1], run[|run| - 1];
    EverConfigured(p, before, pin) || Configures(p, Play(p, FRESH, before), call, pin)
  }

  /** The pin was configured, the backend was reset after that, and it has not been configured again since. */
  predicate Forgotten(p: Policy, run: seq<Call>, pin: int) {
    run != [] &&
    var before, call := run[..|run| - 1], run[|run| - 1];
    if call.op.DoReset? then EverConfigured(p, before, pin)
    else Forgotten(p, before, pin) && !Configures(p, Play(p, FRESH, before), call, pin)
  }

  ghost predicate NoneForgotten(p: Policy, run: seq<Call>) {
    forall pin :: !Forgotten(p, run, pin)
  }

  /** Every pin of the backend is in the cache, with equal direction, pull mode and value. */
  ghost predicate BackendCached(c: Controller) {
    forall pin :: pin in c.mock.pins ==>
      pin in c.activePins && c.activePins[pin] == M.StateOf(pin, c.mock.pins[pin])
  }

  lemma PerformCached(p: Policy, c: Controller, op: Op)
    requires BackendCached(c) && !op.DoReset? && !op.DoWake?
    ensures var (after, err) := Perform(p, c, op);
            var added := if op.DoConfigure? && err == None then {op.config.pin} else {};
            && BackendCached(after)
            && after.activePins.Keys == c.activePins.Keys + added && after.mock.pins.Keys == c.mock.pins.Keys + added
  {
  }

  lemma CallCached(p: Policy, c: Controller, call: Call)
    requires BackendCached(c) && !call.op.DoReset?
    ensures var after := Step(p, c, call.op, call.now);
            && BackendCached(after)
            && forall pin ::
                 && (pin in after.activePins <==> pin in c.activePins || Configures(p, c, call, pin))
                 && (pin in after.mock.pins <==> pin in c.mock.pins || Configures(p, c, call, pin))
  {
    if !call.op.DoWake? {
      var (l, denied) := IsPinAllowed(p, c.limiter, PinOf(call.op), NameOf(call.op), call.now);
      if denied == None { PerformCached(p, c.(limiter := l), call.op); }
    }
  }

  /**
   In every reachable state the backend's pins are cached and agree; the cache holds every pin ever
   configured, the backend those of them that no reset has made it forget.
   */
  lemma {:induction false} SessionCached(p: Policy, run: seq<Call>)
    ensures var c := Play(p, FRESH, run);
            && BackendCached(c)
            && forall pin ::
                 && (pin in c.activePins <==> EverConfigured(p, run, pin))
                 && (pin in c.mock.pins <==> EverConfigured(p, run, pin) && !Forgotten(p, run, pin))
                 && (Forgotten(p, run, pin) ==> EverConfigured(p, run, pin))
  {
    if run != [] {
      var before, call := run[..|run| - 1], run[|run| - 1];
      SessionCached(p, before);
      if !call.op.DoReset? { CallCached(p, Play(p, FRESH, before), call); }
    }
  }

  /** The pin is cached, but the backend no longer has it. */
  predicate Lost(c: Controller, pin: int) {
    pin in c.activePins && pin !in c.mock.pins
  }

  lemma CoherentIffNoneLost(c: Controller)
    requires BackendCached(c)
    ensures Coherent(c) <==> forall pin :: !Lost(c, pin)
  {
    forall pin | pin in c.mock.pins ensures pin in c.activePins.Keys {
    }
    if forall pin :: !Lost(c, pin) {
      forall pin | pin in c.activePins ensures pin in c.mock.pins.Keys {
        assert !Lost(c, pin);
      }
      assert c.activePins.Keys == c.mock.pins.Keys;
    }
  }

  /**
   Whatever calls a session makes, refused and failing ones and backend resets included: the cache and the
   backend list the same pins with equal direction, pull mode and value exactly when no pin was configured
   and then lost to a reset without being configured again.
   */
  lemma SessionCoherent(p: Policy, run: seq<Call>)
    ensures Coherent(Play(p, FRESH, run)) <==> NoneForgotten(p, run)
  {
    SessionCached(p, run);
    var c := Play(p, FRESH, run);
    CoherentIffNoneLost(c);
    if forall pin :: !Lost(c, pin) {
      forall pin ensures !Forgotten(p, run, pin) {
        assert !Lost(c, pin);
      }
    } else {
      var pin :| Lost(c, pin);
      assert Forgotten(p, run, pin);
    }
  }

  // ----- confinement, handlers and slots in every reachable state

  ghost predicate Confined(p: Policy, c: Controller) {
    && M.HandlersMatch(c.mock) && Balanced(c.limiter, p.maxOps)
    && forall pin :: pin in c.mock.pins || pin in c.activePins ==> Permitted(p, pin)
  }

  lemma PerformLeavesLimiter(p: Policy, c: Controller, op: Op)
    requires !op.DoReset? && !op.DoWake?
    ensures Perform(p, c, op).0.limiter == c.limiter
  {
  }

  lemma PerformConfined(p: Policy, c: Controller, op: Op)
    requires Confined(p, c) && !op.DoReset? && !op.DoWake? && Permitted(p, PinOf(op))
    ensures Confined(p, Perform(p, c, op).0)
  {
    PerformLeavesLimiter(p, c, op);
  }

  lemma GuardedConfined(p: Policy, c: Controller, op: Op, now: int)
    requires Confined(p, c) && !op.DoReset? && !op.DoWake?
    ensures Confined(p, Guarded(p, c, op, now).0)
  {
    AdmitBalanced(c.limiter, p.maxOps, p.timeout, now);
    var (l, denied) := IsPinAllowed(p, c.limiter, PinOf(op), NameOf(op), now);
    if denied == None { PerformConfined(p, c.(limiter := l), op); }
  }

  /** In every reachable state, resets included. */
  lemma {:induction false} RunsConfined(p: Policy, run: seq<Call>)
    ensures Confined(p, Play(p, FRESH, run))
  {
    if run != [] {
      var n := |run| - 1;
      RunsConfined(p, run[..n]);
      var c := Play(p, FRESH, run[..n]);
      var op, now := run[n].op, run[n].now;
      if op.DoWake? {
        if op.admission in c.limiter.sleepers { WakeBalanced(c.limiter, p.maxOps, op.admission); }
      } else if !op.DoReset? {
        GuardedConfined(p, c, op, now);
      }
    }
  }

  /**
   A controller built from any configuration only ever holds permitted pins: within 0..27, allowed when
   there is a list, restricted neither by the caller nor as a critical pin, whatever AllowCriticalPins
   says; at paranoid level the pins are among 18 to 21.
   */
  lemma ControllerConfined(p: Policy, level: Level, run: seq<Call>, pin: int)
    requires pin in Play(SecureDefaults(p, level), FRESH, run).mock.pins
    ensures 0 <= pin <= 27 && pin !in p.restricted && pin !in {0, 1, 14, 15}
    ensures if level == Paranoid then 18 <= pin <= 21 else p.allowed != [] ==> pin in p.allowed
  {
    RunsConfined(SecureDefaults(p, level), run);
    SecureDefaultsRestrict(p, level);
  }

  /** A call as the admission counter sees it. */
  function AdmissionEvent(call: Call): seq<Event> {
    if call.op.DoReset? then []
    else if call.op.DoWake? then [WakeUp(call.op.admission, call.now)]
    else [Request(call.now)]
  }

  function AdmissionEvents(run: seq<Call>): seq<Event> {
    if run == [] then [] else AdmissionEvents(run[..|run| - 1]) + AdmissionEvent(run[|run| - 1])
  }

  lemma StepOnCounter(p: Policy, c: Controller, call: Call)
    ensures var e := AdmissionEvent(call); var l := Step(p, c, call.op, call.now).limiter;
            l == if e == [] then c.limiter else OpLimiter.Step(c.limiter, p.maxOps, p.timeout, e[0])
  {
    if !call.op.DoReset? && !call.op.DoWake? {
      var (l, denied) := IsPinAllowed(p, c.limiter, PinOf(call.op), NameOf(call.op), call.now);
      PerformLeavesLimiter(p, c.(limiter := l), call.op);
    }
  }

  lemma PlayOneMore(events: seq<Event>, e: Event, max: int, timeout: int)
    ensures OpLimiter.Play(events + [e], max, timeout)
            == OpLimiter.Step(OpLimiter.Play(events, max, timeout), max, timeout, e)
    ensures Admitted(events + [e], max, timeout)
            == Admitted(events, max, timeout) + AdmittedBy(OpLimiter.Play(events, max, timeout), max, timeout, e)
  {
    assert (events + [e])[..|events|] == events;
  }

  /** Every call but a reset goes through the counter. */
  lemma {:induction false} CallsThroughCounter(p: Policy, run: seq<Call>)
    ensures Play(p, FRESH, run).limiter == OpLimiter.Play(AdmissionEvents(run), p.maxOps, p.timeout)
  {
    if run != [] {
      var before, call := run[..|run| - 1], run[|run| - 1];
      CallsThroughCounter(p, before);
      StepOnCounter(p, Play(p, FRESH, before), call);
      var e := AdmissionEvent(call);
      if e == [] {
        assert AdmissionEvents(run) == AdmissionEvents(before);
      } else {
        assert e == [e[0]];
        PlayOneMore(AdmissionEvents(before), e[0], p.maxOps, p.timeout);
      }
    }
  }

  /** The clock does not run backwards from call to call, and no goroutine wakes before its sleep is over. */
  ghost predicate LegalCalls(p: Policy, run: seq<Call>) {
    run == [] ||
    (var before, call := run[..|run| - 1], run[|run| - 1];
     var sleepers := Play(p, FRESH, before).limiter.sleepers;
     && LegalCalls(p, before)
     && (before != [] ==> before[|before| - 1].now <= call.now)
     && (call.op.DoWake? && call.op.admission in sleepers ==> sleepers[call.op.admission] <= call.now))
  }

  /** The call was not turned away for too many operations; it may still have been refused after that. */
  predicate GotSlot(p: Policy, c: Controller, call: Call) {
    !call.op.DoReset? && !call.op.DoWake? && Guarded(p, c, call.op, call.now).1 != Some(TooManyOperations)
  }

  /** The times of the calls that got a slot. */
  function SlotTimes(p: Policy, run: seq<Call>): seq<int> {
    if run == [] then []
    else
      var before, call := run[..|run| - 1], run[|run| - 1];
      SlotTimes(p, before) + if GotSlot(p, Play(p, FRESH, before), call) then [call.now] else []
  }

  /** A call gets a slot exactly when the counter admits its event. */
  lemma SlotIsAdmission(p: Policy, c: Controller, call: Call)
    ensures var e := AdmissionEvent(call);
            (if GotSlot(p, c, call) then [call.now] else [])
            == if e == [] then [] else AdmittedBy(c.limiter, p.maxOps, p.timeout, e[0])
  {
    if !call.op.DoReset? && !call.op.DoWake? {
      var (l, denied) := IsPinAllowed(p, c.limiter, PinOf(call.op), NameOf(call.op), call.now);
      assert Perform(p, c.(limiter := l), call.op).1 != Some(TooManyOperations);
    }
  }

  lemma LegalOneMore(events: seq<Event>, e: Event, max: int, timeout: int)
    requires Legal(events, max, timeout) && (events != [] ==> events[|events| - 1].now <= e.now)
    requires var sleepers := OpLimiter.Play(events, max, timeout).sleepers;
             e.WakeUp? && e.admission in sleepers ==> sleepers[e.admission] <= e.now
    ensures Legal(events + [e], max, timeout)
  {
    assert (events + [e])[..|events|] == events;
  }

  /** The events are a legal run of the counter that ends by the given time, and admits at the given times. */
  ghost predicate LegalUpTo(p: Policy, events: seq<Event>, now: int, slots: seq<int>) {
    && Legal(events, p.maxOps, p.timeout) && slots == Admitted(events, p.maxOps, p.timeout)
    && (events != [] ==> events[|events| - 1].now <= now)
  }

  lemma EventLegal(p: Policy, c: Controller, call: Call, events: seq<Event>, slots: seq<int>)
    requires LegalUpTo(p, events, call.now, slots) && c.limiter == OpLimiter.Play(events, p.maxOps, p.timeout)
    requires call.op.DoWake? && call.op.admission in c.limiter.sleepers ==>
               c.limiter.sleepers[call.op.admission] <= call.now
    ensures LegalUpTo(p, events + AdmissionEvent(call), call.now,
                      slots + if GotSlot(p, c, call) then [call.now] else [])
  {
    SlotIsAdmission(p, c, call);
    var e := AdmissionEvent(call);
    if e == [] {
      assert events + e == events;
    } else {
      assert e == [e[0]];
      PlayOneMore(events, e[0], p.maxOps, p.timeout);
      LegalOneMore(events, e[0], p.maxOps, p.timeout);
    }
  }

  /** The calls of a session are a legal run of the counter, and the slots they get are its admissions. */
  lemma {:induction false} SlotsAreAdmissions(p: Policy, run: seq<Call>)
    requires LegalCalls(p, run)
    ensures LegalUpTo(p, AdmissionEvents(run), if run == [] then 0 else run[|run| - 1].now, SlotTimes(p, run))
  {
    if run != [] {
      var before, call := run[..|run| - 1], run[|run| - 1];
      SlotsAreAdmissions(p, before);
      CallsThroughCounter(p, before);
      EventLegal(p, Play(p, FRESH, before), call, AdmissionEvents(before), SlotTimes(p, before));
    }
  }

  lemma LegalBound(p: Policy, events: seq<Event>, now: int, slots: seq<int>, k: nat)
    requires LegalUpTo(p, events, now, slots) && 0 < p.maxOps && k + p.maxOps < |slots|
    ensures slots[k] + p.timeout <= slots[k + p.maxOps]
  {
    OpLimiter.WindowBound(events, p.maxOps, p.timeout, k);
  }

  /**
   The controller's rate: whatever the calls are and however late the goroutines run, of any maxOps + 1
   consecutive calls that get a slot the last comes at least the operation timeout after the first.
   */
  lemma CallRateBound(p: Policy, run: seq<Call>, k: nat)
    requires LegalCalls(p, run) && 0 < p.maxOps && k + p.maxOps < |SlotTimes(p, run)|
    ensures SlotTimes(p, run)[k] + p.timeout <= SlotTimes(p, run)[k + p.maxOps]
  {
    SlotsAreAdmissions(p, run);
    LegalBound(p, AdmissionEvents(run), if run == [] then 0 else run[|run| - 1].now, SlotTimes(p, run), k);
  }
}
