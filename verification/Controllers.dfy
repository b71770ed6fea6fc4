/** The objects behind the drive modes: state machine, bench test, and the control thread's choice between them. */
module Controllers {
  import opened Basics
  import opened DriveModes

  /** The wheel drives' last commanded modes. */
  class Drives {
    var wheels: Wheels

    constructor ()
      ensures wheels == Wheels(false, false)
    {
      wheels := Wheels(false, false);
    }

    /** Mode command; rejected for ids that are not wheel drives. */
    method SetOdriveMode(id: nat, velocity: bool) returns (ok: bool)
      modifies this
      ensures ok <==> id == 5 || id == 6
      ensures wheels == Commanded(old(wheels), id, velocity)
    {
      if id == 5 {
        wheels := wheels.(left := velocity);
        return true;
      }
      if id == 6 {
        wheels := wheels.(right := velocity);
        return true;
      }
      return false;
    }
  }

  const ZEROS := [0.0, 0.0, 0.0, 0.0, 0.0, 0.0]

  /** What the stand-up and the balance controller answer, six torques each. */
  datatype Answers = Answers(standUp: seq<real>, balance: seq<real>) {
    predicate Valid() {
      |standUp| == |balance| == 6
    }
  }

  class RobotStateMachine {
    const uses: bool
    var mode: Mode

    constructor (usesWheelVelocity: bool)
      ensures mode == Idle && uses == usesWheelVelocity
    {
      uses, mode := usesWheelVelocity, Idle;
    }

    /**
     One update: the transition, both wheel drives on an edge into or out of velocity mode, and the
     torques of the controller in charge; disarmed and in car mode all six are zero.
     */
    method Update(drives: Drives, r: Reading, a: Answers) returns (torques: seq<real>)
      requires a.Valid()
      modifies this, drives
      ensures torques == if mode == StandingUp then a.standUp else if mode == Balancing then a.balance else ZEROS
      ensures mode == NextMode(old(mode), r.armed, r.carSwitch, r.standing)
      ensures drives.wheels == Switched(uses, old(drives.wheels), old(mode), mode)
    {
      torques := ZEROS;
      var prev := mode;
      if !r.armed {
        mode := Idle;
      } else if r.carSwitch {
        mode := Car;
      } else if prev == Idle || prev == Car {
        mode := StandingUp;
      } else if prev == StandingUp {
        mode := if r.standing then Balancing else StandingUp;
      } else {
        mode := Balancing;
      }
      if mode != prev {
        var wasVel, nowVel := WantsVelocity(uses, prev), WantsVelocity(uses, mode);
        if nowVel && !wasVel {
          var ok5 := drives.SetOdriveMode(5, true);
          var ok6 := drives.SetOdriveMode(6, true);
        } else if !nowVel && wasVel {
          var ok5 := drives.SetOdriveMode(5, false);
          var ok6 := drives.SetOdriveMode(6, false);
        }
      }
      if !r.armed { return; }
      match mode
      case StandingUp => torques := a.standUp;
      case Balancing => torques := a.balance;
      case Idle =>
      case Car =>
    }
  }

  // ---- the bench test ----

  const HIP_TORQUE_LIMIT := 3.0
  const ARRIVE_EPS := 0.03
  const ROTATION := 2.0 * 3.14159265
  const WHEEL_SPEED := 1.0

  /** Motor feedback and the hip controller's answer to an error, as inputs. */
  datatype Feedback = Feedback(valid: bool, pos: real, lo: real, hi: real, pid: real -> real)

  /** The sweep reverses on reaching the bound it heads for, or after a full wheel rotation. */
  predicate Reverses(isHip: bool, dir: int, wheelStart: real, f: Feedback) {
    if isHip then Abs(f.pos - (if dir > 0 then f.hi else f.lo)) < ARRIVE_EPS
    else Abs(f.pos - wheelStart) >= ROTATION
  }

  class MotorTest {
    var test: Test
    var dir: int
    var wheelStart: real
    var wheelTarget: real

    constructor ()
      ensures test == NO_TEST && dir == 1
    {
      test, dir, wheelStart, wheelTarget := NO_TEST, 1, 0.0, 0.0;
    }

    method Start(drives: Drives, id: nat, f: Feedback) returns (ok: bool)
      modifies this, drives
      ensures ok <==> 1 <= id <= 6
      ensures !ok ==> test == old(test) && dir == old(dir) && drives.wheels == old(drives.wheels)
      ensures ok ==>
                && test == Test(true, id, id <= 4) && dir == 1
                && drives.wheels == (if id <= 4 then old(drives.wheels) else Commanded(old(drives.wheels), id, true))
                && wheelStart == if f.valid then f.pos else 0.0
    {
      if id < 1 || id > 6 { return false; }
      test := Test(true, id, id <= 4);
      dir := 1;
      if !test.isHip {
        var _ := drives.SetOdriveMode(id, true);
      }
      wheelStart := if f.valid then f.pos else 0.0;
      return true;
    }

    /** Reverts the wheel last under test to torque mode, active or not, and ends the test. */
    method Stop(drives: Drives)
      modifies this`test, drives
      ensures test == old(test).(active := false)
      ensures drives.wheels == if old(test).isHip then old(drives.wheels) else Commanded(old(drives.wheels), old(test).motor, false)
    {
      if !test.isHip {
        var _ := drives.SetOdriveMode(test.motor, false);
      }
      test := test.(active := false);
    }

    /**
     One compute tick of the sweep: every motor but a hip under test gets zero torque, that hip a bounded
     one toward a bound it is not at yet, and a wheel under test the signed speed of its current direction.
     */
    method Update(f: Feedback) returns (torques: seq<real>)
      requires test.active ==> 1 <= test.motor <= 6 && (test.isHip <==> test.motor <= 4)
      requires dir == 1 || dir == -1
      modifies this`dir, this`wheelStart, this`wheelTarget
      ensures |torques| == 6
      ensures forall i :: 0 <= i < 6 ==>
                torques[i] == 0.0 || (test.active && test.isHip && f.valid && i == test.motor - 1)
      ensures forall i :: 0 <= i < 6 ==> -HIP_TORQUE_LIMIT <= torques[i] <= HIP_TORQUE_LIMIT
      ensures dir == if test.active && f.valid && Reverses(test.isHip, old(dir), old(wheelStart), f) then -old(dir) else old(dir)
      ensures test.active && f.valid && test.isHip ==>
                torques[test.motor - 1]
                  == Clamp(f.pid((if dir > 0 then f.hi else f.lo) - f.pos), -HIP_TORQUE_LIMIT, HIP_TORQUE_LIMIT)
      ensures test.active && f.valid && test.isHip && f.hi - f.lo >= 2.0 * ARRIVE_EPS ==>
                Abs((if dir > 0 then f.hi else f.lo) - f.pos) >= ARRIVE_EPS
      ensures test.active && f.valid && !test.isHip ==>
                && wheelTarget == (if dir > 0 then WHEEL_SPEED else -WHEEL_SPEED)
                && Abs(f.pos - wheelStart) < ROTATION
      ensures !(test.active && f.valid && !test.isHip) ==> wheelTarget == old(wheelTarget) && wheelStart == old(wheelStart)
    {
      torques := [0.0, 0.0, 0.0, 0.0, 0.0, 0.0];
      if !test.active || !f.valid { return; }
      if test.isHip {
        var target := if dir > 0 then f.hi else f.lo;
        if Abs(f.pos - target) < ARRIVE_EPS {
          dir := -dir;
          target := if dir > 0 then f.hi else f.lo;
        }
        torques := torques[test.motor - 1 := Clamp(f.pid(target - f.pos), -HIP_TORQUE_LIMIT, HIP_TORQUE_LIMIT)];
      } else {
        if Abs(f.pos - wheelStart) >= ROTATION {
          dir := -dir;
          wheelStart := f.pos;
        }
        wheelTarget := (dir as real) * WHEEL_SPEED;
      }
    }
  }

  // ---- the control thread ----

  class ControlThread {
    const machine: RobotStateMachine
    const bench: MotorTest
    const drives: Drives

    ghost function Abstract(): State
      reads this, machine, bench, drives
    {
      State(machine.mode, bench.test, drives.wheels)
    }

    ghost predicate Valid()
      reads this, bench
    {
      && (bench.test.active ==> 1 <= bench.test.motor <= 6 && (bench.test.isHip <==> bench.test.motor <= 4))
      && (bench.dir == 1 || bench.dir == -1)
    }

    constructor (usesWheelVelocity: bool)
      ensures Valid() && fresh(machine) && fresh(bench) && fresh(drives)
      ensures Abstract() == START && machine.uses == usesWheelVelocity
    {
      machine := new RobotStateMachine(usesWheelVelocity);
      bench := new MotorTest();
      drives := new Drives();
    }

    /** A compute tick. Disarmed, every motor but a hip under test gets zero torque, and that hip at most 3 Nm. */
    method ComputeTick(r: Reading, f: Feedback, a: Answers) returns (torques: seq<real>)
      requires Valid() && a.Valid()
      modifies machine, bench, drives
      ensures Valid() && Abstract() == Step(machine.uses, old(Abstract()), Control(r))
      ensures |torques| == 6
      ensures r.armed ==>
                torques == match machine.mode case StandingUp => a.standUp case Balancing => a.balance case _ => ZEROS
      ensures !r.armed ==> forall i :: 0 <= i < 6 ==>
                torques[i] == 0.0 || (old(bench.test.active && bench.test.isHip) && i == old(bench.test.motor) - 1
                                      && -HIP_TORQUE_LIMIT <= torques[i] <= HIP_TORQUE_LIMIT)
    {
      if bench.test.active {
        if r.armed {
          bench.Stop(drives);
          torques := machine.Update(drives, r, a);
        } else {
          torques := bench.Update(f);
        }
      } else {
        torques := machine.Update(drives, r, a);
      }
    }

    method TestStart(id: nat, f: Feedback)
      requires Valid()
      modifies bench, drives
      ensures Valid() && Abstract() == Step(machine.uses, old(Abstract()), UsbStart(id))
    {
      var ok := bench.Start(drives, id, f);
    }

    method TestStop()
      requires Valid()
      modifies bench, drives
      ensures Valid() && Abstract() == Step(machine.uses, old(Abstract()), UsbStop)
    {
      bench.Stop(drives);
    }
  }
}
