/** Radio and control threads together: what the link allows the robot to do. */
module LinkLoss {
  import Radio
  import DriveModes

  /** A pass of the radio thread, a compute tick on the armed flag published last, or a test command. */
  datatype Event = Bytes(bytes: seq<bv8>) | Compute(carSwitch: bool, standing: bool) | UsbStart(id: nat) | UsbStop

  datatype Robot = Robot(link: Radio.State, drive: DriveModes.State)

  function DriveEvent(armed: bool, e: Event): DriveModes.Event
    requires !e.Bytes?
  {
    match e
    case Compute(carSwitch, standing) => DriveModes.Control(DriveModes.Reading(armed, carSwitch, standing))
    case UsbStart(id) => DriveModes.UsbStart(id)
    case UsbStop => DriveModes.UsbStop
  }

  function Step(r: Radio.Reader, uses: bool, s: Robot, e: Event): (s': Robot)
    requires s.link.Valid()
    ensures s'.link.Valid()
  {
    if e.Bytes? then s.(link := Radio.Ticked(r, s.link, e.bytes))
    else s.(drive := DriveModes.Step(uses, s.drive, DriveEvent(s.link.armed, e)))
  }

  function Run(r: Radio.Reader, uses: bool, events: seq<Event>): (s: Robot)
    ensures s.link.Valid()
  {
    if |events| == 0 then Robot(Radio.Start(), DriveModes.START)
    else Step(r, uses, Run(r, uses, events[..|events| - 1]), events[|events| - 1])
  }

  /** What the radio thread sees of a run, and what the control thread sees of it. */
  function Ticks(events: seq<Event>): seq<seq<bv8>> {
    if |events| == 0 then []
    else
      var before, e := Ticks(events[..|events| - 1]), events[|events| - 1];
      if e.Bytes? then before + [e.bytes] else before
  }

  function DriveEvents(r: Radio.Reader, uses: bool, events: seq<Event>): seq<DriveModes.Event> {
    if |events| == 0 then []
    else
      var before, e := DriveEvents(r, uses, events[..|events| - 1]), events[|events| - 1];
      if e.Bytes? then before else before + [DriveEvent(Run(r, uses, events[..|events| - 1]).link.armed, e)]
  }

  /** Each thread runs as it does alone, on its own events. */
  lemma {:induction false} ThreadsApart(r: Radio.Reader, uses: bool, events: seq<Event>)
    ensures Run(r, uses, events).link == Radio.After(r, Ticks(events))
    ensures Run(r, uses, events).drive == DriveModes.Run(uses, DriveEvents(r, uses, events))
  {
    if |events| > 0 {
      var before, e := events[..|events| - 1], events[|events| - 1];
      ThreadsApart(r, uses, before);
      if e.Bytes? {
        assert Ticks(events)[..|Ticks(events)| - 1] == Ticks(before);
      } else {
        assert DriveEvents(r, uses, events)[..|DriveEvents(r, uses, events)| - 1] == DriveEvents(r, uses, before);
      }
    }
  }

  lemma {:induction false} DisarmedIdles(r: Radio.Reader, uses: bool, events: seq<Event>, carSwitch: bool, standing: bool)
    requires DriveModes.AlwaysAllowed(uses, DriveEvents(r, uses, events)) && !Run(r, uses, events).link.armed
    ensures Run(r, uses, events + [Compute(carSwitch, standing)]).drive.mode == DriveModes.Idle
  {
    var drive, e := DriveEvents(r, uses, events), DriveModes.Control(DriveModes.Reading(false, carSwitch, standing));
    ComputeNext(r, uses, events, carSwitch, standing, false);
    ThreadsApart(r, uses, events);
    DriveModes.DisarmedRunsIdle(uses, drive, e.reading);
    DriveNext(uses, drive, e);
  }

  lemma {:induction false} ComputeNext(r: Radio.Reader, uses: bool, events: seq<Event>, carSwitch: bool, standing: bool,
                                            armed: bool)
    requires armed == Run(r, uses, events).link.armed
    ensures Run(r, uses, events + [Compute(carSwitch, standing)]).drive
         == DriveModes.Step(uses, Run(r, uses, events).drive,
                            DriveModes.Control(DriveModes.Reading(armed, carSwitch, standing)))
  {
    RunNext(r, uses, events, Compute(carSwitch, standing));
  }

  lemma {:induction false} RunNext(r: Radio.Reader, uses: bool, events: seq<Event>, e: Event)
    ensures Run(r, uses, events + [e]) == Step(r, uses, Run(r, uses, events), e)
  {
    assert (events + [e])[..|events|] == events;
  }

  lemma {:induction false} DriveNext(uses: bool, drive: seq<DriveModes.Event>, e: DriveModes.Event)
    ensures DriveModes.Run(uses, drive + [e]) == DriveModes.Step(uses, DriveModes.Run(uses, drive), e)
  {
    assert (drive + [e])[..|drive|] == drive;
  }

  /**
   Over every run of both threads with tests used as allowed, a compute tick leaves the robot in a mode
   other than idle only if a good frame has come within the last 50 passes of the radio thread and the
   latest one reads as ready.
   */
  lemma {:induction false} MovesOnlyLinked(r: Radio.Reader, uses: bool, events: seq<Event>, carSwitch: bool, standing: bool)
    requires DriveModes.AlwaysAllowed(uses, DriveEvents(r, uses, events))
    requires Run(r, uses, events + [Compute(carSwitch, standing)]).drive.mode != DriveModes.Idle
    ensures r.ready(Radio.Latest(r, Ticks(events))) && Radio.Age(r, Ticks(events)) <= Radio.TIMEOUT_TICKS
  {
    if !Run(r, uses, events).link.armed {
      DisarmedIdles(r, uses, events, carSwitch, standing);
      assert false;
    }
    ThreadsApart(r, uses, events);
    Radio.ArmedExactly(r, Ticks(events));
  }

  /** So after 51 passes without a good frame, a compute tick leaves the robot idle. */
  lemma {:induction false} LostLinkIdles(r: Radio.Reader, uses: bool, events: seq<Event>, carSwitch: bool, standing: bool)
    requires DriveModes.AlwaysAllowed(uses, DriveEvents(r, uses, events))
    requires Radio.Silent(r, Ticks(events), 51)
    ensures Run(r, uses, events + [Compute(carSwitch, standing)]).drive.mode == DriveModes.Idle
  {
    Radio.SilentExactly(r, Ticks(events), 51);
    if Run(r, uses, events + [Compute(carSwitch, standing)]).drive.mode != DriveModes.Idle {
      MovesOnlyLinked(r, uses, events, carSwitch, standing);
    }
  }
}
