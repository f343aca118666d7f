/**
 The mock GPIO backend: configured pins, and edge-triggered events on writes. Directions, pull modes and
 event types are strings as in the source, pin values are arbitrary integers. Timestamps are left out;
 a handler is a number, and starting its goroutine appends to the emitted events.
 */
module GpioMock {
  import opened Options

  const INPUT := "input"
  const OUTPUT := "output"
  const LOW := 0
  const HIGH := 1
  const RISING := "rising"
  const FALLING := "falling"
  const BOTH := "both"

  datatype PinConfig = PinConfig(pin: int, direction: string, pullMode: string, pwmFrequency: int, pwmDutyCycle: int)

  datatype MockPin = MockPin(config: PinConfig, value: int)

  datatype PinState = PinState(pin: int, direction: string, value: int, pullMode: string)

  datatype Event = Event(handler: nat, pin: int, eventType: string, value: int)

  datatype Mock = Mock(pins: map<int, MockPin>, handlers: map<int, nat>, types: map<int, string>, emitted: seq<Event>)

  const BLANK := Mock(map[], map[], map[], [])

  /** Initialize and Close both drop every pin and handler; what was emitted stays emitted. */
  function Cleared(m: Mock): Mock {
    Mock(map[], map[], map[], m.emitted)
  }

  function Configure(m: Mock, c: PinConfig): Option<Mock> {
    if c.pin < 0 || c.pin > 40 then None else Some(m.(pins := m.pins[c.pin := MockPin(c, LOW)]))
  }

  function Read(m: Mock, pin: int): Option<int> {
    if pin !in m.pins || m.pins[pin].config.direction != INPUT then None else Some(m.pins[pin].value)
  }

  predicate Triggers(eventType: string, before: int, after: int) {
    before != after &&
    if eventType == RISING then before == LOW && after == HIGH
    else if eventType == FALLING then before == HIGH && after == LOW
    else eventType == BOTH
  }

  function Write(m: Mock, pin: int, value: int): Option<Mock> {
    if pin !in m.pins || m.pins[pin].config.direction != OUTPUT then None
    else
      var before := m.pins[pin].value;
      var written := m.(pins := m.pins[pin := m.pins[pin].(value := value)]);
      if pin in m.handlers && pin in m.types && Triggers(m.types[pin], before, value)
      then Some(written.(emitted := m.emitted + [Event(m.handlers[pin], pin, m.types[pin], value)]))
      else Some(written)
  }

  function SetPwm(m: Mock, pin: int, frequency: int, dutyCycle: int): Option<Mock> {
    if pin !in m.pins || m.pins[pin].config.direction != OUTPUT then None
    else if frequency < 1 || frequency > 10000 || dutyCycle < 0 || dutyCycle > 100 then None
    else
      var mp := m.pins[pin];
      var config := mp.config.(pwmFrequency := frequency, pwmDutyCycle := dutyCycle);
      Some(m.(pins := m.pins[pin := mp.(config := config)]))
  }

  function Enable(m: Mock, pin: int, eventType: string, handler: nat): Option<Mock> {
    if pin !in m.pins then None
    else Some(m.(handlers := m.handlers[pin := handler], types := m.types[pin := eventType]))
  }

  function Disable(m: Mock, pin: int): Mock {
    m.(handlers := m.handlers - {pin}, types := m.types - {pin})
  }

  function StateOf(pin: int, mp: MockPin): PinState {
    PinState(pin, mp.config.direction, mp.value, mp.config.pullMode)
  }

  // ----- what every operation keeps

  /** Handlers and types always share one key set, and only configured pins have handlers. */
  ghost predicate HandlersMatch(m: Mock) {
    && m.handlers.Keys == m.types.Keys <= m.pins.Keys
    && forall p :: p in m.pins ==> m.pins[p].config.pin == p
  }

  datatype MockOp =
    | DoConfigure(config: PinConfig)
    | DoWrite(pin: int, value: int)
    | DoPwm(pin: int, frequency: int, dutyCycle: int)
    | DoEnable(pin: int, eventType: string, handler: nat)
    | DoDisable(pin: int)

  /** One operation; a refused one leaves the backend as it was. */
  function Step(m: Mock, op: MockOp): Mock {
    var result := match op
      case DoConfigure(c) => Configure(m, c)
      case DoWrite(p, v) => Write(m, p, v)
      case DoPwm(p, f, d) => SetPwm(m, p, f, d)
      case DoEnable(p, t, h) => Enable(m, p, t, h)
      case DoDisable(p) => Some(Disable(m, p));
    if result.Some? then result.value else m
  }

  function Play(m: Mock, run: seq<MockOp>): Mock
    decreases |run|
  {
    if run == [] then m else Play(Step(m, run[0]), run[1..])
  }

  lemma {:induction false} RunsKeepHandlersMatch(m: Mock, run: seq<MockOp>)
    requires HandlersMatch(m)
    ensures HandlersMatch(Play(m, run))
    decreases |run|
  {
    if run != [] { RunsKeepHandlersMatch(Step(m, run[0]), run[1..]); }
  }

  /** A reset forgets every pin and handler; what was emitted stays emitted. */
  lemma ResetForgets(m: Mock)
    ensures Cleared(m).pins == map[] && Cleared(m).handlers == map[] && Cleared(m).types == map[]
    ensures Cleared(m).emitted == m.emitted
  {
  }

  // ----- events are the edges of the write history

  /** Which changes a type reports: from 0 to 1, from 1 to 0, or every one; any other type reports none. */
  lemma TriggersIff(eventType: string, before: int, after: int)
    ensures Triggers(eventType, before, after) <==>
            || (eventType == "rising" && before == 0 && after == 1)
            || (eventType == "falling" && before == 1 && after == 0)
            || (eventType == "both" && before != after)
  {
    assert |"both"| != |"rising"| && |"both"| != |"falling"| && |"rising"| != |"falling"|;
  }

  /** The events a handler of this type sees for a history of values that starts from before. */
  function Edges(handler: nat, pin: int, eventType: string, before: int, values: seq<int>): seq<Event>
    decreases |values|
  {
    if values == [] then []
    else (if Triggers(eventType, before, values[0]) then [Event(handler, pin, eventType, values[0])] else [])
         + Edges(handler, pin, eventType, values[0], values[1..])
  }

  function EventsOf(pin: int, events: seq<Event>): seq<Event> {
    if events == [] then []
    else
      var n := |events| - 1;
      EventsOf(pin, events[..n]) + if events[n].pin == pin then [events[n]] else []
  }

  function WritesTo(pin: int, run: seq<MockOp>): seq<int> {
    if run == [] then []
    else (if run[0].DoWrite? && run[0].pin == pin then [run[0].value] else []) + WritesTo(pin, run[1..])
  }

  function LastOf(before: int, values: seq<int>): int {
    if values == [] then before else values[|values| - 1]
  }

  lemma EventsOfOneMore(pin: int, events: seq<Event>, e: Event)
    ensures EventsOf(pin, events + [e]) == EventsOf(pin, events) + if e.pin == pin then [e] else []
  {
    assert (events + [e])[..|events|] == events;
  }

  /** The operation neither configures the pin nor changes its interrupt; other pins are free. */
  predicate Leaves(pin: int, op: MockOp) {
    match op
    case DoConfigure(c) => c.pin != pin
    case DoEnable(p, _, _) => p != pin
    case DoDisable(p) => p != pin
    case _ => true
  }

  ghost predicate Watched(m: Mock, pin: int, eventType: string, handler: nat) {
    && pin in m.pins && m.pins[pin].config.direction == OUTPUT
    && pin in m.handlers && m.handlers[pin] == handler
    && pin in m.types && m.types[pin] == eventType
  }

  /** From m to n the pin took the given values, and its events are exactly their edges. */
  ghost predicate EmitsEdges(m: Mock, n: Mock, pin: int, eventType: string, handler: nat, values: seq<int>) {
    && Watched(m, pin, eventType, handler) && Watched(n, pin, eventType, handler)
    && n.pins[pin].value == LastOf(m.pins[pin].value, values)
    && EventsOf(pin, n.emitted)
       == EventsOf(pin, m.emitted) + Edges(handler, pin, eventType, m.pins[pin].value, values)
  }

  lemma StepEmitsEdges(m: Mock, pin: int, eventType: string, handler: nat, op: MockOp)
    requires Watched(m, pin, eventType, handler) && Leaves(pin, op)
    ensures EmitsEdges(m, Step(m, op), pin, eventType, handler, WritesTo(pin, [op]))
  {
    if op.DoWrite? {
      if Write(m, op.pin, op.value).Some? && op.pin in m.handlers && op.pin in m.types {
        EventsOfOneMore(pin, m.emitted, Event(m.handlers[op.pin], op.pin, m.types[op.pin], op.value));
      }
    } else {
      assert Step(m, op).emitted == m.emitted;
    }
  }

  lemma EdgesStep(handler: nat, pin: int, eventType: string, before: int, first: seq<int>, rest: seq<int>)
    requires |first| <= 1
    ensures Edges(handler, pin, eventType, before, first + rest)
            == Edges(handler, pin, eventType, before, first)
               + Edges(handler, pin, eventType, LastOf(before, first), rest)
    ensures LastOf(before, first + rest) == LastOf(LastOf(before, first), rest)
  {
    if first == [] {
      assert first + rest == rest;
    } else {
      assert first[1..] == [] && (first + rest)[1..] == rest;
    }
  }

  lemma Compose(m: Mock, n: Mock, o: Mock, pin: int, eventType: string, handler: nat, first: seq<int>, rest: seq<int>)
    requires |first| <= 1
    requires EmitsEdges(m, n, pin, eventType, handler, first) && EmitsEdges(n, o, pin, eventType, handler, rest)
    ensures EmitsEdges(m, o, pin, eventType, handler, first + rest)
  {
    EdgesStep(handler, pin, eventType, m.pins[pin].value, first, rest);
  }

  lemma WritesToHead(pin: int, run: seq<MockOp>)
    requires run != []
    ensures WritesTo(pin, run) == WritesTo(pin, [run[0]]) + WritesTo(pin, run[1..])
    ensures |WritesTo(pin, [run[0]])| <= 1
  {
    assert [run[0]][1..] == [];
  }

  /**
   Over any run that leaves a watched output pin configured as it is, whatever happens on other pins,
   the events for the pin are exactly the edges of the values written to it.
   */
  lemma {:induction false} EventsAreEdges(m: Mock, pin: int, eventType: string, handler: nat, run: seq<MockOp>)
    requires Watched(m, pin, eventType, handler) && forall i :: 0 <= i < |run| ==> Leaves(pin, run[i])
    ensures EmitsEdges(m, Play(m, run), pin, eventType, handler, WritesTo(pin, run))
    decreases |run|
  {
    if run == [] {
      assert Edges(handler, pin, eventType, m.pins[pin].value, []) == [];
    } else {
      var n := Step(m, run[0]);
      StepEmitsEdges(m, pin, eventType, handler, run[0]);
      EventsAreEdges(n, pin, eventType, handler, run[1..]);
      WritesToHead(pin, run);
      Compose(m, n, Play(n, run[1..]), pin, eventType, handler, WritesTo(pin, [run[0]]), WritesTo(pin, run[1..]));
    }
  }

  function Changes(before: int, values: seq<int>): nat
    decreases |values|
  {
    if values == [] then 0 else (if before != values[0] then 1 else 0) + Changes(values[0], values[1..])
  }

  /** No event repeats the value before it; the first one differs from the starting value. */
  ghost predicate Alternates(before: int, events: seq<Event>) {
    && (events != [] ==> events[0].value != before)
    && forall i :: 0 < i < |events| ==> events[i].value != events[i - 1].value
  }

  /** A both-edges handler sees every value change once, and never the same value twice in a row. */
  lemma {:induction false} BothEdgesAlternate(handler: nat, pin: int, before: int, values: seq<int>)
    ensures |Edges(handler, pin, BOTH, before, values)| == Changes(before, values)
    ensures Alternates(before, Edges(handler, pin, BOTH, before, values))
    decreases |values|
  {
    assert |BOTH| != |RISING| && |BOTH| != |FALLING|;
    if values != [] {
      BothEdgesAlternate(handler, pin, values[0], values[1..]);
      var rest := Edges(handler, pin, BOTH, values[0], values[1..]);
      if before != values[0] {
        assert Edges(handler, pin, BOTH, before, values) == [Event(handler, pin, BOTH, values[0])] + rest;
      } else {
        assert Edges(handler, pin, BOTH, before, values) == rest;
      }
    }
  }

  /**
   For binary values, rising minus falling edges is the net change of the pin: they differ by at most one,
   and together they are all the changes.
   */
  lemma {:induction false} RisesMinusFalls(handler: nat, pin: int, before: int, values: seq<int>)
    requires before == LOW || before == HIGH
    requires forall v :: v in values ==> v == LOW || v == HIGH
    ensures var rises := |Edges(handler, pin, RISING, before, values)|;
            var falls := |Edges(handler, pin, FALLING, before, values)|;
            && rises - falls == LastOf(before, values) - before
            && rises + falls == Changes(before, values)
    decreases |values|
  {
    assert RISING != FALLING by { assert |RISING| != |FALLING|; }
    if values != [] {
      assert values[0] in values && forall v :: v in values[1..] ==> v in values;
      RisesMinusFalls(handler, pin, values[0], values[1..]);
    }
  }

  /** Any other integer is accepted too, and hides edges: here two rises and no fall. */
  lemma NonBinaryWritesHideFalls(handler: nat, pin: int, x: int)
    requires x != LOW && x != HIGH
    ensures |Edges(handler, pin, RISING, LOW, [HIGH, x, LOW, HIGH])| == 2
    ensures |Edges(handler, pin, FALLING, LOW, [HIGH, x, LOW, HIGH])| == 0
  {
    var v := [HIGH, x, LOW, HIGH];
    assert v[1..] == [x, LOW, HIGH] && v[1..][1..] == [LOW, HIGH] && v[1..][1..][1..] == [HIGH];
    assert v[1..][1..][1..][1..] == [];
    assert RISING != FALLING by { assert |RISING| != |FALLING|; }
    assert |Edges(handler, pin, RISING, LOW, v[1..][1..][1..])| == 1;
    assert |Edges(handler, pin, RISING, x, v[1..][1..])| == 1;
    assert |Edges(handler, pin, FALLING, LOW, v[1..][1..][1..])| == 0;
    assert |Edges(handler, pin, FALLING, x, v[1..][1..])| == 0;
  }

  /** Rising and falling edges of a history of values differ by at most one. */
  ghost predicate EdgesBalanced(handler: nat, pin: int, before: int, values: seq<int>) {
    -1 <= |Edges(handler, pin, RISING, before, values)| - |Edges(handler, pin, FALLING, before, values)| <= 1
  }

  predicate DrawnFrom(values: seq<int>, allowed: set<int>) {
    forall v :: v in values ==> v in allowed
  }

  /** A history without LOW has at most the one rise from a LOW before it; one without HIGH at most one fall. */
  lemma {:induction false} OneLevelEdges(handler: nat, pin: int, before: int, values: seq<int>)
    ensures LOW !in values ==>
              && |Edges(handler, pin, RISING, before, values)| <= (if before == LOW then 1 else 0)
              && |Edges(handler, pin, FALLING, before, values)| == 0
    ensures HIGH !in values ==>
              && |Edges(handler, pin, FALLING, before, values)| <= (if before == HIGH then 1 else 0)
              && |Edges(handler, pin, RISING, before, values)| == 0
    decreases |values|
  {
    assert RISING != FALLING by { assert |RISING| != |FALLING|; }
    if values != [] {
      assert values[0] in values && forall v :: v in values[1..] ==> v in values;
      OneLevelEdges(handler, pin, values[0], values[1..]);
    }
  }

  /**
   A caller can rely on rising and falling edges differing by at most one, whatever it writes from a set of
   values, exactly when the set does not hold both levels and a third value.
   */
  lemma EdgesBalancedIff(handler: nat, pin: int, allowed: set<int>)
    ensures (forall before, values :: before in {LOW, HIGH} && DrawnFrom(values, allowed) ==>
               EdgesBalanced(handler, pin, before, values))
            <==> !({LOW, HIGH} < allowed)
  {
    if {LOW, HIGH} < allowed {
      assert allowed - {LOW, HIGH} != {};
      var x := Member(allowed - {LOW, HIGH});
      NonBinaryWritesHideFalls(handler, pin, x);
      assert DrawnFrom([HIGH, x, LOW, HIGH], allowed);
      assert !EdgesBalanced(handler, pin, LOW, [HIGH, x, LOW, HIGH]);
    } else {
      forall before, values | before in {LOW, HIGH} && DrawnFrom(values, allowed)
        ensures EdgesBalanced(handler, pin, before, values)
      {
        if LOW !in values || HIGH !in values {
          OneLevelEdges(handler, pin, before, values);
        } else {
          assert {LOW, HIGH} <= allowed && allowed == {LOW, HIGH};
          RisesMinusFalls(handler, pin, before, values);
          assert LastOf(before, values) in values;
        }
      }
    }
  }

  // ----- settings and interrupts over runs

  /** The operation neither configures the pin nor sets its PWM. */
  predicate KeepsPwm(pin: int, op: MockOp) {
    match op
    case DoConfigure(c) => c.pin != pin
    case DoPwm(p, _, _) => p != pin
    case _ => true
  }

  lemma {:induction false} ConfigKept(m: Mock, run: seq<MockOp>, pin: int)
    requires pin in m.pins && forall i :: 0 <= i < |run| ==> KeepsPwm(pin, run[i])
    ensures pin in Play(m, run).pins && Play(m, run).pins[pin].config == m.pins[pin].config
    decreases |run|
  {
    if run != [] { ConfigKept(Step(m, run[0]), run[1..], pin); }
  }

  /**
   PWM settings are accepted exactly for a configured output, 1 to 10000 Hz and a duty cycle of 0 to 100; they
   are the pin's settings until it is configured or set again, and nothing but them has changed.
   */
  lemma PwmSettingsStay(m: Mock, pin: int, frequency: int, dutyCycle: int, run: seq<MockOp>)
    requires forall i :: 0 <= i < |run| ==> KeepsPwm(pin, run[i])
    ensures SetPwm(m, pin, frequency, dutyCycle).Some? <==>
            && pin in m.pins && m.pins[pin].config.direction == "output"
            && 1 <= frequency <= 10000 && 0 <= dutyCycle <= 100
    ensures SetPwm(m, pin, frequency, dutyCycle).Some? ==>
              var n := SetPwm(m, pin, frequency, dutyCycle).value;
              && pin in Play(n, run).pins && Play(n, run).pins[pin].config.pwmFrequency == frequency
              && Play(n, run).pins[pin].config.pwmDutyCycle == dutyCycle && pin in n.pins
              && StateOf(pin, n.pins[pin]) == StateOf(pin, m.pins[pin])
              && n.pins - {pin} == m.pins - {pin} && n.(pins := m.pins) == m
  {
    if SetPwm(m, pin, frequency, dutyCycle).Some? {
      ConfigKept(SetPwm(m, pin, frequency, dutyCycle).value, run, pin);
    }
  }

  /** The operation does not enable an interrupt on the pin. */
  predicate LeavesQuiet(pin: int, op: MockOp) {
    op.DoEnable? ==> op.pin != pin
  }

  lemma QuietStep(m: Mock, pin: int, op: MockOp)
    requires pin !in m.handlers && LeavesQuiet(pin, op)
    ensures pin !in Step(m, op).handlers && EventsOf(pin, Step(m, op).emitted) == EventsOf(pin, m.emitted)
  {
    if op.DoWrite? && Write(m, op.pin, op.value).Some? && op.pin in m.handlers && op.pin in m.types {
      EventsOfOneMore(pin, m.emitted, Event(m.handlers[op.pin], op.pin, m.types[op.pin], op.value));
    }
  }

  lemma {:induction false} StaysQuiet(m: Mock, pin: int, run: seq<MockOp>)
    requires pin !in m.handlers && forall i :: 0 <= i < |run| ==> LeavesQuiet(pin, run[i])
    ensures EventsOf(pin, Play(m, run).emitted) == EventsOf(pin, m.emitted)
    decreases |run|
  {
    if run != [] {
      QuietStep(m, pin, run[0]);
      StaysQuiet(Step(m, run[0]), pin, run[1..]);
    }
  }

  /** Once its interrupt is disabled a pin emits nothing until one is enabled again; other pins are untouched. */
  lemma DisabledIsSilent(m: Mock, pin: int, run: seq<MockOp>)
    requires forall i :: 0 <= i < |run| ==> LeavesQuiet(pin, run[i])
    ensures EventsOf(pin, Play(Disable(m, pin), run).emitted) == EventsOf(pin, m.emitted)
    ensures var n := Disable(m, pin);
            n.pins == m.pins && n.handlers == m.handlers - {pin} && n.types == m.types - {pin}
  {
    StaysQuiet(Disable(m, pin), pin, run);
  }

  /**
   An interrupt can be enabled on every configured pin and no other; from then on an output pin emits exactly
   the edges of its writes, to the handler and of the type that were given, until the pin or its interrupt is
   set again.
   */
  lemma EnabledEmits(m: Mock, pin: int, eventType: string, handler: nat, run: seq<MockOp>)
    requires forall i :: 0 <= i < |run| ==> Leaves(pin, run[i])
    ensures Enable(m, pin, eventType, handler).Some? <==> pin in m.pins
    ensures pin in m.pins && m.pins[pin].config.direction == "output" ==>
              EmitsEdges(Enable(m, pin, eventType, handler).value,
                         Play(Enable(m, pin, eventType, handler).value, run), pin, eventType, handler,
                         WritesTo(pin, run))
    ensures pin in m.pins ==>
              var n := Enable(m, pin, eventType, handler).value;
              && n.pins == m.pins && n.emitted == m.emitted
              && n.handlers - {pin} == m.handlers - {pin} && n.types - {pin} == m.types - {pin}
  {
    if pin in m.pins && m.pins[pin].config.direction == "output" {
      EventsAreEdges(Enable(m, pin, eventType, handler).value, pin, eventType, handler, run);
    }
  }

  // ----- what can be read

  ghost predicate OnlyOutputsHigh(m: Mock) {
    forall p :: p in m.pins && m.pins[p].config.direction != "output" ==> m.pins[p].value == 0
  }

  lemma {:induction false} RunsKeepInputsLow(m: Mock, run: seq<MockOp>)
    requires OnlyOutputsHigh(m)
    ensures OnlyOutputsHigh(Play(m, run))
    decreases |run|
  {
    if run != [] { RunsKeepInputsLow(Step(m, run[0]), run[1..]); }
  }

  /**
   A read succeeds exactly on a configured input. In every reachable state it then returns 0: only outputs can
   be written, and configuring a pin sets it to 0.
   */
  lemma InputsReadLow(run: seq<MockOp>, pin: int)
    ensures var m := Play(BLANK, run);
            && (Read(m, pin).Some? <==> pin in m.pins && m.pins[pin].config.direction == "input")
            && (Read(m, pin).Some? ==> Read(m, pin).value == 0)
  {
    assert "input" != "output" by { assert |"input"| != |"output"|; }
    RunsKeepInputsLow(BLANK, run);
  }

  /** Configuring accepts the pins 0 to 40, stores the configuration with value 0, and changes nothing else. */
  lemma ConfigureStores(m: Mock, c: PinConfig)
    ensures Configure(m, c).Some? <==> 0 <= c.pin <= 40
    ensures Configure(m, c).Some? ==>
              var n := Configure(m, c).value;
              && c.pin in n.pins && n.pins[c.pin].config == c && n.pins[c.pin].value == 0
              && n.pins - {c.pin} == m.pins - {c.pin} && n.(pins := m.pins) == m
  {
  }

  // ----- the backend object

  class MockGpio {
    var pins: map<int, MockPin>
    var eventHandlers: map<int, nat>
    var eventTypes: map<int, string>
    var emitted: seq<Event>

    constructor ()
      ensures State() == BLANK
    {
      pins, eventHandlers, eventTypes, emitted := map[], map[], map[], [];
    }

    function State(): Mock
      reads this
    {
      Mock(pins, eventHandlers, eventTypes, emitted)
    }

    method Reset()
      modifies this
      ensures State() == Cleared(old(State()))
    {
      pins, eventHandlers, eventTypes := map[], map[], map[];
    }

    method ConfigurePin(config: PinConfig) returns (ok: bool)
      modifies this
      ensures ok <==> Configure(old(State()), config).Some?
      ensures State() == if ok then Configure(old(State()), config).value else old(State())
    {
      if config.pin < 0 || config.pin > 40 {
        return false;
      }
      pins := pins[config.pin := MockPin(config, LOW)];
      return true;
    }

    method ReadPin(pin: int) returns (value: Option<int>)
      ensures value == Read(State(), pin)
    {
      if pin !in pins || pins[pin].config.direction != INPUT {
        return None;
      }
      return Some(pins[pin].value);
    }

    method WritePin(pin: int, value: int) returns (ok: bool)
      modifies this
      ensures ok <==> Write(old(State()), pin, value).Some?
      ensures State() == if ok then Write(old(State()), pin, value).value else old(State())
    {
      if pin !in pins || pins[pin].config.direction != OUTPUT {
        return false;
      }
      var oldValue := pins[pin].value;
      pins := pins[pin := pins[pin].(value := value)];
      if pin in eventHandlers && oldValue != value {
        var eventType := if pin in eventTypes then eventTypes[pin] else "";
        var shouldTrigger := false;
        if eventType == RISING {
          shouldTrigger := oldValue == LOW && value == HIGH;
        } else if eventType == FALLING {
          shouldTrigger := oldValue == HIGH && value == LOW;
        } else if eventType == BOTH {
          shouldTrigger := true;
        }
        if shouldTrigger {
          emitted := emitted + [Event(eventHandlers[pin], pin, eventType, value)];
        }
      }
      return true;
    }

    method SetPWM(pin: int, frequency: int, dutyCycle: int) returns (ok: bool)
      modifies this
      ensures ok <==> SetPwm(old(State()), pin, frequency, dutyCycle).Some?
      ensures State() == if ok then SetPwm(old(State()), pin, frequency, dutyCycle).value else old(State())
    {
      if pin !in pins || pins[pin].config.direction != OUTPUT {
        return false;
      }
      if frequency < 1 || frequency > 10000 {
        return false;
      }
      if dutyCycle < 0 || dutyCycle > 100 {
        return false;
      }
      var config := pins[pin].config.(pwmFrequency := frequency, pwmDutyCycle := dutyCycle);
      pins := pins[pin := pins[pin].(config := config)];
      return true;
    }

    method EnableInterrupt(pin: int, eventType: string, handler: nat) returns (ok: bool)
      modifies this
      ensures ok <==> Enable(old(State()), pin, eventType, handler).Some?
      ensures State() == if ok then Enable(old(State()), pin, eventType, handler).value else old(State())
    {
      if pin !in pins {
        return false;
      }
      eventHandlers := eventHandlers[pin := handler];
      eventTypes := eventTypes[pin := eventType];
      return true;
    }

    method DisableInterrupt(pin: int)
      modifies this
      ensures State() == Disable(old(State()), pin)
    {
      eventHandlers := eventHandlers - {pin};
      eventTypes := eventTypes - {pin};
    }

    /** The configured pins, each once, in no particular order. */
    method ListConfiguredPins() returns (states: seq<PinState>)
      ensures |states| == |pins|
      ensures forall s :: s in states <==> s.pin in pins && s == StateOf(s.pin, pins[s.pin])
    {
      states := [];
      var todo := pins.Keys;
      while todo != {}
        invariant todo <= pins.Keys && |states| + |todo| == |pins|
        invariant forall s :: s in states ==> s.pin in pins && s.pin !in todo && s == StateOf(s.pin, pins[s.pin])
        invariant forall p :: p in pins && p !in todo ==> StateOf(p, pins[p]) in states
        decreases |todo|
      {
        ghost var some := Member(todo);
        var p :| p in todo;
        todo := todo - {p};
        states := states + [StateOf(p, pins[p])];
      }
    }
  }
}
