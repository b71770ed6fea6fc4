/**
 The wheel drives' controller mode, commanded by the robot state machine and by the bench test, and
 when the two agree with what the send thread assumes.
 */
module DriveModes {

  datatype Mode = Idle | StandingUp | Balancing | Car

  /** The bench test. Motor 0 stands for none so far. */
  datatype Test = Test(active: bool, motor: nat, isHip: bool) {
    predicate OnWheel(w: nat) {
      active && !isHip && motor == w
    }
  }

  const NO_TEST := Test(false, 0, false)

  /** Whether each wheel drive, ids 5 and 6, was last commanded into velocity mode. */
  datatype Wheels = Wheels(left: bool, right: bool) {
    function Of(w: nat): bool {
      if w == 5 then left else right
    }
  }

  datatype State = State(mode: Mode, test: Test, wheels: Wheels)

  const START := State(Idle, NO_TEST, Wheels(false, false))

  /** uses: whether the balance controller drives the wheels by velocity, a build-time choice. */
  predicate WantsVelocity(uses: bool, m: Mode) {
    m == Car || m == StandingUp || (m == Balancing && uses)
  }

  /** A mode command; ids that are not wheel drives are rejected. */
  function Commanded(v: Wheels, id: nat, velocity: bool): Wheels {
    if id == 5 then v.(left := velocity) else if id == 6 then v.(right := velocity) else v
  }

  function NextMode(m: Mode, armed: bool, carSwitch: bool, standing: bool): Mode {
    if !armed then Idle
    else if carSwitch then Car
    else if m == Idle || m == Car then StandingUp
    else if m == StandingUp then (if standing then Balancing else StandingUp)
    else Balancing
  }

  /** The drive commands on a change of mode. */
  function Switched(uses: bool, v: Wheels, before: Mode, after: Mode): Wheels {
    if before == after then v
    else if WantsVelocity(uses, after) && !WantsVelocity(uses, before) then Wheels(true, true)
    else if !WantsVelocity(uses, after) && WantsVelocity(uses, before) then Wheels(false, false)
    else v
  }

  function Started(s: State, id: nat): State {
    if id < 1 || id > 6 then s
    else s.(test := Test(true, id, id <= 4), wheels := if id <= 4 then s.wheels else Commanded(s.wheels, id, true))
  }

  function Stopped(s: State): State {
    s.(test := s.test.(active := false),
       wheels := if s.test.isHip then s.wheels else Commanded(s.wheels, s.test.motor, false))
  }

  datatype Reading = Reading(armed: bool, carSwitch: bool, standing: bool)

  function Moved(uses: bool, s: State, r: Reading): State {
    var m := NextMode(s.mode, r.armed, r.carSwitch, r.standing);
    s.(mode := m, wheels := Switched(uses, s.wheels, s.mode, m))
  }

  /** A compute tick: a running test goes first while disarmed, and arming aborts it. */
  function Controlled(uses: bool, s: State, r: Reading): State {
    if s.test.active && !r.armed then s
    else Moved(uses, if s.test.active then Stopped(s) else s, r)
  }

  datatype Event = Control(reading: Reading) | UsbStart(id: nat) | UsbStop

  function Step(uses: bool, s: State, e: Event): State {
    match e
    case Control(r) => Controlled(uses, s, r)
    case UsbStart(id) => Started(s, id)
    case UsbStop => Stopped(s)
  }

  // ---- agreement ----

  /** A wheel is in velocity mode exactly when the robot wants it to be or the wheel is under test. */
  predicate Agree(uses: bool, s: State) {
    && (s.wheels.left <==> WantsVelocity(uses, s.mode) || s.test.OnWheel(5))
    && (s.wheels.right <==> WantsVelocity(uses, s.mode) || s.test.OnWheel(6))
  }

  /** The state after further compute ticks. */
  function Ticked(uses: bool, s: State, rs: seq<Reading>): State {
    if |rs| == 0 then s else Controlled(uses, Ticked(uses, s, rs[..|rs| - 1]), rs[|rs| - 1])
  }

  /** Modes agree now and after any further compute ticks. */
  ghost predicate StaysAgreed(uses: bool, s: State) {
    forall rs: seq<Reading> :: Agree(uses, Ticked(uses, s, rs))
  }

  /** What the test's fields always satisfy. */
  predicate Booked(t: Test) {
    (t.isHip <==> 1 <= t.motor <= 4) && t.motor <= 6 && (t.motor == 0 ==> !t.active)
  }

  /** No wheel is under test while the robot drives both by velocity. */
  predicate Apart(uses: bool, s: State) {
    s.test.active && !s.test.isHip ==> !WantsVelocity(uses, s.mode)
  }

  predicate Sound(uses: bool, s: State) {
    Booked(s.test) && Agree(uses, s) && Apart(uses, s)
  }

  /** Every compute tick keeps agreement, arming in the middle of a test included. */
  lemma ControlKeeps(uses: bool, s: State, r: Reading)
    requires Sound(uses, s)
    ensures Sound(uses, Controlled(uses, s, r))
  {
  }

  lemma {:induction false} TicksKeep(uses: bool, s: State, rs: seq<Reading>)
    requires Sound(uses, s)
    ensures Sound(uses, Ticked(uses, s, rs))
  {
    if |rs| > 0 {
      TicksKeep(uses, s, rs[..|rs| - 1]);
      ControlKeeps(uses, Ticked(uses, s, rs[..|rs| - 1]), rs[|rs| - 1]);
    }
  }

  /**
   Agreement lasts exactly when it holds now and no wheel is under test while the robot drives both:
   otherwise the tick that aborts the test leaves that wheel in torque mode.
   */
  lemma StaysAgreedExactly(uses: bool, s: State)
    requires Booked(s.test)
    ensures StaysAgreed(uses, s) <==> Agree(uses, s) && Apart(uses, s)
  {
    if StaysAgreed(uses, s) {
      var abort := Reading(true, s.mode == Car, false);
      assert Ticked(uses, s, []) == s;
      assert [abort][..0] == [];
      assert Ticked(uses, s, [abort]) == Controlled(uses, s, abort);
    } else if Sound(uses, s) {
      forall rs: seq<Reading> ensures Agree(uses, Ticked(uses, s, rs)) {
        TicksKeep(uses, s, rs);
      }
    }
  }

  /**
   Starting a test keeps lasting agreement exactly when no other wheel is under test and, for a wheel,
   the robot is not driving the wheels by velocity.
   */
  lemma StartKeepsExactly(uses: bool, s: State, id: nat)
    requires Booked(s.test) && StaysAgreed(uses, s) && 1 <= id <= 6
    ensures StaysAgreed(uses, Started(s, id)) <==>
              && !(s.test.active && !s.test.isHip && s.test.motor != id)
              && (id >= 5 ==> !WantsVelocity(uses, s.mode))
  {
    StaysAgreedExactly(uses, s);
    StaysAgreedExactly(uses, Started(s, id));
  }

  /** Right after the start the modes agree even while driving; the next tick breaks it. */
  lemma StartAgreesAtFirst(uses: bool, s: State, id: nat)
    requires Booked(s.test) && StaysAgreed(uses, s) && 1 <= id <= 6
    ensures Agree(uses, Started(s, id)) <==> !(s.test.active && !s.test.isHip && s.test.motor != id)
  {
    StaysAgreedExactly(uses, s);
  }

  /** Stopping keeps lasting agreement exactly when the last motor under test was no wheel or the robot is not driving them. */
  lemma StopKeepsExactly(uses: bool, s: State)
    requires Booked(s.test) && StaysAgreed(uses, s)
    ensures StaysAgreed(uses, Stopped(s)) <==> (s.test.motor < 5 || !WantsVelocity(uses, s.mode))
    ensures Agree(uses, Stopped(s)) <==> StaysAgreed(uses, Stopped(s))
  {
    StaysAgreedExactly(uses, s);
    StaysAgreedExactly(uses, Stopped(s));
  }

  // ---- runs ----

  function Run(uses: bool, events: seq<Event>): State {
    if |events| == 0 then START else Step(uses, Run(uses, events[..|events| - 1]), events[|events| - 1])
  }

  /** Tests are started only while the robot is idle and none is active, and stopped over USB only while idle. */
  predicate Allowed(s: State, e: Event) {
    match e
    case Control(_) => true
    case UsbStart(id) => s.mode == Idle && !s.test.active
    case UsbStop => s.mode == Idle
  }

  predicate AlwaysAllowed(uses: bool, events: seq<Event>) {
    forall k :: 0 <= k < |events| ==> Allowed(Run(uses, events[..k]), events[k])
  }

  lemma AllowedBefore(uses: bool, events: seq<Event>)
    requires |events| > 0 && AlwaysAllowed(uses, events)
    ensures AlwaysAllowed(uses, events[..|events| - 1])
    ensures Allowed(Run(uses, events[..|events| - 1]), events[|events| - 1])
  {
    var before := events[..|events| - 1];
    forall k | 0 <= k < |before| ensures Allowed(Run(uses, before[..k]), before[k]) {
      assert before[..k] == events[..k] && before[k] == events[k];
    }
  }

  /** Over every such run each wheel's drive mode agrees with the robot and the test, and tests run only while idle. */
  lemma {:induction false} RunsAgree(uses: bool, events: seq<Event>)
    requires AlwaysAllowed(uses, events)
    ensures var s := Run(uses, events); Sound(uses, s) && (s.test.active ==> s.mode == Idle)
  {
    if |events| > 0 {
      var before, e := events[..|events| - 1], events[|events| - 1];
      AllowedBefore(uses, events);
      RunsAgree(uses, before);
      StepKeeps(uses, Run(uses, before), e);
    }
  }

  lemma StepKeeps(uses: bool, s: State, e: Event)
    requires Sound(uses, s) && Allowed(s, e) && (s.test.active ==> s.mode == Idle)
    ensures var s' := Step(uses, s, e); Sound(uses, s') && (s'.test.active ==> s'.mode == Idle)
  {
  }

  // ---- disarming ----

  /** A disarmed tick leaves the robot idle exactly when it was idle or no test was running. */
  lemma DisarmIdlesExactly(uses: bool, s: State, r: Reading)
    requires !r.armed
    ensures Controlled(uses, s, r).mode == Idle <==> s.mode == Idle || !s.test.active
  {
  }

  /** Over every run with that use of tests, a disarmed tick leaves the robot idle and no wheel driven by it. */
  lemma DisarmedRunsIdle(uses: bool, events: seq<Event>, r: Reading)
    requires AlwaysAllowed(uses, events) && !r.armed
    ensures Run(uses, events + [Control(r)]).mode == Idle
  {
    RunsAgree(uses, events);
    assert (events + [Control(r)])[..|events|] == events;
  }

  /** A test started while driving, then a disarm before the next tick: the robot goes on driving for as long as it stays disarmed. */
  lemma {:induction false} DisarmMissed(uses: bool, id: nat, rs: seq<Reading>)
    requires 1 <= id <= 6 && forall k :: 0 <= k < |rs| ==> !rs[k].armed
    ensures var s := Run(uses, [Control(Reading(true, true, false)), UsbStart(id)]);
            Ticked(uses, s, rs) == s && s.mode == Car && WantsVelocity(uses, s.mode)
  {
    var drive := Control(Reading(true, true, false));
    assert [drive, UsbStart(id)][..1] == [drive] && [drive][..0] == [];
    assert Run(uses, [drive]) == Step(uses, START, drive);
    if |rs| > 0 {
      DisarmMissed(uses, id, rs[..|rs| - 1]);
    }
  }

  // ---- what goes wrong while driving ----

  /** A wheel test started while driving is aborted on the next tick and leaves that wheel in torque mode. */
  lemma StartWhileDriving(uses: bool)
    ensures var drive := Control(Reading(true, true, false));
            var s := Run(uses, [drive, UsbStart(5), drive]);
            WantsVelocity(uses, s.mode) && !s.wheels.left && s.wheels.right && !s.test.active
  {
    var drive := Control(Reading(true, true, false));
    var events := [drive, UsbStart(5), drive];
    assert events[..2] == [drive, UsbStart(5)];
    assert [drive, UsbStart(5)][..1] == [drive];
    assert [drive][..0] == [];
    assert Run(uses, [drive]) == Step(uses, START, drive);
    assert Run(uses, [drive, UsbStart(5)]) == Step(uses, Run(uses, [drive]), UsbStart(5));
  }

  /** So does a stop sent while driving, on the wheel tested last. */
  lemma StopWhileDriving(uses: bool)
    ensures var drive := Control(Reading(true, true, false));
            var s := Run(uses, [UsbStart(6), UsbStop, drive, UsbStop]);
            WantsVelocity(uses, s.mode) && s.wheels.left && !s.wheels.right
  {
    var drive := Control(Reading(true, true, false));
    var events := [UsbStart(6), UsbStop, drive, UsbStop];
    assert events[..3] == [UsbStart(6), UsbStop, drive];
    assert [UsbStart(6), UsbStop, drive][..2] == [UsbStart(6), UsbStop];
    assert [UsbStart(6), UsbStop][..1] == [UsbStart(6)];
    assert [UsbStart(6)][..0] == [];
    assert Run(uses, [UsbStart(6)]) == Step(uses, START, UsbStart(6));
    assert Run(uses, [UsbStart(6), UsbStop]) == Step(uses, Run(uses, [UsbStart(6)]), UsbStop);
    assert Run(uses, [UsbStart(6), UsbStop, drive]) == Step(uses, Run(uses, [UsbStart(6), UsbStop]), drive);
  }

  // ---- what the wheels are sent ----

  datatype Command = Velocity(id: nat) | Torque(id: nat)

  /** One pass of the send thread. */
  function Sent(uses: bool, s: State): seq<Command> {
    (if WantsVelocity(uses, s.mode) then [Velocity(5), Velocity(6)] else [Torque(5), Torque(6)])
    + (if s.test.active && !s.test.isHip then [Velocity(s.test.motor)] else [])
  }

  /** The last command of a pass that a wheel hears. */
  function LastFor(commands: seq<Command>, w: nat): seq<Command> {
    if |commands| == 0 then []
    else if commands[|commands| - 1].id == w then [commands[|commands| - 1]]
    else LastFor(commands[..|commands| - 1], w)
  }

  lemma LastOfAppend(commands: seq<Command>, c: Command, w: nat)
    ensures LastFor(commands + [c], w) == if c.id == w then [c] else LastFor(commands, w)
  {
    assert (commands + [c])[..|commands|] == commands;
  }

  /** While modes agree, the command each wheel ends a pass with is of the kind its drive expects. */
  lemma SendsMatchModes(uses: bool, s: State, w: nat)
    requires Agree(uses, s) && 5 <= w <= 6
    ensures LastFor(Sent(uses, s), w) == [if s.wheels.Of(w) then Velocity(w) else Torque(w)]
  {
    var a, b := if WantsVelocity(uses, s.mode) then Velocity(5) else Torque(5),
                if WantsVelocity(uses, s.mode) then Velocity(6) else Torque(6);
    assert [] + [a] == [a] && [a] + [b] == [a, b];
    LastOfAppend([], a, w);
    LastOfAppend([a], b, w);
    if s.test.active && !s.test.isHip {
      LastOfAppend([a, b], Velocity(s.test.motor), w);
    } else {
      assert [a, b] + [] == [a, b];
    }
  }

  // ---- the mode, by the readings ----

  /** The readings that reach the state machine: a disarmed tick while a test is active goes to the test instead. */
  function Acted(uses: bool, events: seq<Event>): seq<Reading> {
    if |events| == 0 then []
    else
      var before, e := events[..|events| - 1], events[|events| - 1];
      Acted(uses, before)
      + if e.Control? && (e.reading.armed || !Run(uses, before).test.active) then [e.reading] else []
  }

  /** Asks the robot to stand or balance. */
  predicate AsksUpright(r: Reading) {
    r.armed && !r.carSwitch
  }

  /** From reading j on all ask the robot upright, and some reading after j found it standing. */
  predicate StoodSince(rs: seq<Reading>, j: nat)
    requires j < |rs|
  {
    && (forall k :: j <= k < |rs| ==> AsksUpright(rs[k]))
    && exists k :: j < k < |rs| && rs[k].standing
  }

  /** What the latest readings mean: disarmed is idle, the switch the car, and upright readings stand up and then balance. */
  ghost predicate ModeIs(rs: seq<Reading>, m: Mode) {
    && (m == Idle <==> |rs| == 0 || !rs[|rs| - 1].armed)
    && (m == Car <==> |rs| > 0 && rs[|rs| - 1].armed && rs[|rs| - 1].carSwitch)
    && (m == Balancing <==> exists j: nat :: j < |rs| && StoodSince(rs, j))
  }

  lemma {:induction false} StoodNext(rs: seq<Reading>, r: Reading, j: nat)
    requires j < |rs|
    ensures StoodSince(rs + [r], j) <==>
              && AsksUpright(r) && (forall k :: j <= k < |rs| ==> AsksUpright(rs[k]))
              && (StoodSince(rs, j) || r.standing)
  {
    var all := rs + [r];
    assert forall k :: 0 <= k < |rs| ==> all[k] == rs[k];
    assert all[|rs|] == r;
    if StoodSince(all, j) {
      var k :| j < k < |all| && all[k].standing;
      assert AsksUpright(all[|rs|]);
      assert k < |rs| ==> rs[k].standing;
      forall i | j <= i < |rs| ensures AsksUpright(rs[i]) { assert AsksUpright(all[i]); }
    }
    if AsksUpright(r) && StoodSince(rs, j) {
      var k :| j < k < |rs| && rs[k].standing;
      assert all[k].standing;
    }
    if AsksUpright(r) && r.standing {
      assert all[|rs|].standing;
    }
  }

  lemma {:induction false} ModeNext(rs: seq<Reading>, m: Mode, r: Reading)
    requires ModeIs(rs, m)
    ensures ModeIs(rs + [r], NextMode(m, r.armed, r.carSwitch, r.standing))
  {
    var all, n := rs + [r], |rs|;
    assert all[n] == r;
    if AsksUpright(r) {
      assert !(exists j: nat :: j == n && StoodSince(all, j));
      if m == Balancing {
        var j: nat :| j < n && StoodSince(rs, j);
        StoodNext(rs, r, j);
      } else if m == StandingUp && r.standing {
        assert AsksUpright(rs[n - 1]);
        StoodNext(rs, r, n - 1);
      } else {
        forall j: nat | j < n ensures !StoodSince(all, j) {
          StoodNext(rs, r, j);
          assert !StoodSince(rs, j);
          assert AsksUpright(rs[n - 1]) ==> m == StandingUp;
        }
      }
    } else {
      forall j: nat | j < |all| ensures !StoodSince(all, j) {
        assert !AsksUpright(all[n]);
      }
    }
  }

  /**
   Over every run the mode follows from the readings that reached the state machine: idle exactly when
   the last was disarmed or there was none, car exactly when it was armed with the switch on, and
   balancing exactly when, among the upright readings up to now, one after the first found the robot standing.
   */
  lemma {:induction false} ModeHistory(uses: bool, events: seq<Event>)
    ensures ModeIs(Acted(uses, events), Run(uses, events).mode)
  {
    if |events| > 0 {
      var before, e := events[..|events| - 1], events[|events| - 1];
      ModeHistory(uses, before);
      assert Acted(uses, before) + [] == Acted(uses, before);
      if e.Control? && (e.reading.armed || !Run(uses, before).test.active) {
        ModeNext(Acted(uses, before), Run(uses, before).mode, e.reading);
      }
    }
  }

  // ---- balancing only after standing up ----

  function Modes(uses: bool, events: seq<Event>, k: nat): Mode
    requires k <= |events|
  {
    Run(uses, events[..k]).mode
  }

  /**
   The event before k was a compute tick, armed and with the switch off, that found the robot standing while
   it stood up, and everything since has been balancing.
   */
  predicate StoodUpAt(uses: bool, events: seq<Event>, k: nat)
    requires 0 < k <= |events|
  {
    && events[k - 1].Control? && AsksUpright(events[k - 1].reading) && events[k - 1].reading.standing
    && Modes(uses, events, k - 1) == StandingUp
    && forall i :: k <= i <= |events| ==> Modes(uses, events, i) == Balancing
  }

  /** A robot standing up that is read as armed, with the switch off, balances next exactly when it stands. */
  lemma {:induction false} StandingDecides(uses: bool, events: seq<Event>, r: Reading)
    requires Run(uses, events).mode == StandingUp && AsksUpright(r)
    ensures var m := Run(uses, events + [Control(r)]).mode;
            if r.standing then m == Balancing else m == StandingUp
  {
    assert (events + [Control(r)])[..|events|] == events;
  }

  /** The robot only ever balances after having stood up, and has balanced ever since. */
  lemma {:induction false} BalancingStoodUp(uses: bool, events: seq<Event>)
    requires Run(uses, events).mode == Balancing
    ensures exists k: nat :: 0 < k <= |events| && StoodUpAt(uses, events, k)
  {
    var n := |events|;
    assert events[..n] == events;
    if n > 0 {
      var before := events[..n - 1];
      forall i: nat | i <= n - 1 ensures Modes(uses, before, i) == Modes(uses, events, i) {
        assert before[..i] == events[..i];
      }
      assert before[..n - 1] == before;
      if Run(uses, before).mode == Balancing {
        BalancingStoodUp(uses, before);
        var k: nat :| 0 < k <= |before| && StoodUpAt(uses, before, k);
        assert StoodUpAt(uses, events, k);
      } else {
        assert StoodUpAt(uses, events, n);
      }
    }
  }
}
