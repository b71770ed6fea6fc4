/** The columns of the robot's message table: label k of a decoded type names field k. */
module LogColumns {
  import opened LogFormat
  import opened LogDecoder
  import opened LogLabels

  // ---- the label texts of the table ----

  /** Words each followed by a comma. */
  function Listed(words: seq<string>): string {
    if |words| == 0 then "" else words[0] + [','] + Listed(words[1..])
  }

  lemma {:induction false} JoinedListed(a: seq<string>, b: seq<string>)
    requires |b| > 0
    ensures Joined(a + b) == Listed(a) + Joined(b)
  {
    if |a| == 0 {
      assert a + b == b;
    } else {
      assert (a + b)[1..] == a[1..] + b;
      JoinedListed(a[1..], b);
    }
  }

  /** The columns of type i: the time stamp and the rate, and then its values. */
  function Columns(i: nat): seq<string>
    requires i < 11
  {
    ["TimeUS", "Rate"] +
    match i
    case 0 => ["Roll", "Pitch", "Yaw", "P", "Q", "R", "Pdot", "Qdot", "Rdot"]
    case 1 => ["X", "Y", "Z", "U", "V", "W", "Udot", "Vdot", "Wdot"]
    case 2 => ["YawStk", "VelStk", "HeightStk", "LeanStk", "Armed", "Mode"]
    case 3 => ["Tq0", "Tq1", "Tq2", "Tq3"]
    case 4 => ["Pos0", "Pos1", "Pos2", "Pos3", "Volt0", "Volt1", "Volt2", "Volt3"]
    case 5 => ["Err0", "Err1", "Err2", "Err3"]
    case 6 => ["L0", "L0dot", "ThL0", "ThL0dot", "L1", "L1dot", "ThL1", "ThL1dot"]
    case 7 => ["Leg0Xdot", "Leg0Zdot", "Leg1Xdot", "Leg1Zdot"]
    case 8 => ["HipVel0", "HipVel1", "HipVel2", "HipVel3", "WheelVel0", "WheelVel1"]
    case 9 => ["BattV", "PmonV", "TotalI"]
    case _ => ["XdotWorld", "ZdotWorld"]
  }

  lemma {:induction false} ListedOne(a: string)
    ensures Listed([a]) == a + [',']
  {
    assert Listed([a]) == a + [','] + Listed([]);
  }

  lemma {:induction false} ListedTwo(a: string, b: string)
    ensures Listed([a, b]) == a + [','] + (b + [','])
  {
    ListedOne(b);
    assert [a, b][1..] == [b];
  }

  lemma {:induction false} ListedThree(a: string, b: string, c: string)
    ensures Listed([a, b, c]) == a + [','] + (b + [','] + (c + [',']))
  {
    ListedTwo(b, c);
    assert [a, b, c][1..] == [b, c];
  }

  lemma {:induction false} ListedParts(a: seq<string>, b: seq<string>)
    ensures Listed(a + b) == Listed(a) + Listed(b)
  {
    if |a| == 0 {
      assert a + b == b;
    } else {
      assert (a + b)[1..] == a[1..] + b;
      ListedParts(a[1..], b);
    }
  }

  lemma {:induction false} JoinedTwo(a: string, b: string)
    ensures Joined([a, b]) == a + [','] + b
  {
    assert [a, b][1..] == [b];
  }

  lemma {:induction false} JoinedThree(a: string, b: string, c: string)
    ensures Joined([a, b, c]) == a + [','] + (b + [','] + c)
  {
    JoinedTwo(b, c);
    assert [a, b, c][1..] == [b, c];
  }

  /** A label text written in two parts, by the words of each. */
  lemma {:induction false} TimedText(first: string, second: string, a: seq<string>, b: seq<string>)
    requires Listed(a) == first && Joined(b) == second && |b| > 0
    ensures Joined(["TimeUS", "Rate"] + (a + b)) == Timed(first, second)
  {
    ListedTwo("TimeUS", "Rate");
    JoinedListed(["TimeUS", "Rate"], a + b);
    JoinedListed(a, b);
    assert Listed(["TimeUS", "Rate"]) == "TimeUS,Rate,";
  }

  lemma {:induction false} AttFirst()
    ensures Listed(["Roll", "Pitch", "Yaw", "P", "Q", "R"]) == "Roll,Pitch,Yaw,P,Q,R,"
  {
    ListedThree("Roll", "Pitch", "Yaw");
    ListedThree("P", "Q", "R");
    assert Listed(["Roll", "Pitch", "Yaw"]) == "Roll,Pitch,Yaw,";
    assert Listed(["P", "Q", "R"]) == "P,Q,R,";
    ListedParts(["Roll", "Pitch", "Yaw"], ["P", "Q", "R"]);
    assert ["Roll", "Pitch", "Yaw"] + ["P", "Q", "R"] == ["Roll", "Pitch", "Yaw", "P", "Q", "R"];
  }

  lemma {:induction false} AttSecond()
    ensures Joined(["Pdot", "Qdot", "Rdot"]) == "Pdot,Qdot,Rdot"
  {
    JoinedThree("Pdot", "Qdot", "Rdot");
  }

  lemma {:induction false} LinFirst()
    ensures Listed(["X", "Y", "Z", "U", "V", "W"]) == "X,Y,Z,U,V,W,"
  {
    ListedThree("X", "Y", "Z");
    ListedThree("U", "V", "W");
    assert Listed(["X", "Y", "Z"]) == "X,Y,Z,";
    assert Listed(["U", "V", "W"]) == "U,V,W,";
    ListedParts(["X", "Y", "Z"], ["U", "V", "W"]);
    assert ["X", "Y", "Z"] + ["U", "V", "W"] == ["X", "Y", "Z", "U", "V", "W"];
  }

  lemma {:induction false} LinSecond()
    ensures Joined(["Udot", "Vdot", "Wdot"]) == "Udot,Vdot,Wdot"
  {
    JoinedThree("Udot", "Vdot", "Wdot");
  }

  lemma {:induction false} RcinText()
    ensures Listed(["YawStk", "VelStk", "HeightStk"]) == "YawStk,VelStk,HeightStk,"
    ensures Joined(["LeanStk", "Armed", "Mode"]) == "LeanStk,Armed,Mode"
  {
    ListedThree("YawStk", "VelStk", "HeightStk");
    JoinedThree("LeanStk", "Armed", "Mode");
  }

  lemma {:induction false} OutpText()
    ensures Listed(["Tq0", "Tq1"]) == "Tq0,Tq1,"
    ensures Joined(["Tq2", "Tq3"]) == "Tq2,Tq3"
  {
    ListedTwo("Tq0", "Tq1");
    JoinedTwo("Tq2", "Tq3");
  }

  lemma {:induction false} HipsFirst()
    ensures Listed(["Pos0", "Pos1", "Pos2", "Pos3"]) == "Pos0,Pos1,Pos2,Pos3,"
  {
    ListedTwo("Pos0", "Pos1");
    ListedTwo("Pos2", "Pos3");
    assert Listed(["Pos0", "Pos1"]) == "Pos0,Pos1,";
    assert Listed(["Pos2", "Pos3"]) == "Pos2,Pos3,";
    ListedParts(["Pos0", "Pos1"], ["Pos2", "Pos3"]);
    assert ["Pos0", "Pos1"] + ["Pos2", "Pos3"] == ["Pos0", "Pos1", "Pos2", "Pos3"];
  }

  lemma {:induction false} HipsSecond()
    ensures Joined(["Volt0", "Volt1", "Volt2", "Volt3"]) == "Volt0,Volt1,Volt2,Volt3"
  {
    ListedTwo("Volt0", "Volt1");
    JoinedTwo("Volt2", "Volt3");
    assert Listed(["Volt0", "Volt1"]) == "Volt0,Volt1,";
    assert Joined(["Volt2", "Volt3"]) == "Volt2,Volt3";
    JoinedListed(["Volt0", "Volt1"], ["Volt2", "Volt3"]);
    assert ["Volt0", "Volt1"] + ["Volt2", "Volt3"] == ["Volt0", "Volt1", "Volt2", "Volt3"];
  }

  lemma {:induction false} HerrText()
    ensures Listed(["Err0", "Err1"]) == "Err0,Err1,"
    ensures Joined(["Err2", "Err3"]) == "Err2,Err3"
  {
    ListedTwo("Err0", "Err1");
    JoinedTwo("Err2", "Err3");
  }

  lemma {:induction false} LegsFirst()
    ensures Listed(["L0", "L0dot", "ThL0", "ThL0dot"]) == "L0,L0dot,ThL0,ThL0dot,"
  {
    ListedTwo("L0", "L0dot");
    ListedTwo("ThL0", "ThL0dot");
    assert Listed(["L0", "L0dot"]) == "L0,L0dot,";
    assert Listed(["ThL0", "ThL0dot"]) == "ThL0,ThL0dot,";
    ListedParts(["L0", "L0dot"], ["ThL0", "ThL0dot"]);
    assert ["L0", "L0dot"] + ["ThL0", "ThL0dot"] == ["L0", "L0dot", "ThL0", "ThL0dot"];
  }

  lemma {:induction false} LegsSecond()
    ensures Joined(["L1", "L1dot", "ThL1", "ThL1dot"]) == "L1,L1dot,ThL1,ThL1dot"
  {
    ListedTwo("L1", "L1dot");
    JoinedTwo("ThL1", "ThL1dot");
    assert Listed(["L1", "L1dot"]) == "L1,L1dot,";
    assert Joined(["ThL1", "ThL1dot"]) == "ThL1,ThL1dot";
    JoinedListed(["L1", "L1dot"], ["ThL1", "ThL1dot"]);
    assert ["L1", "L1dot"] + ["ThL1", "ThL1dot"] == ["L1", "L1dot", "ThL1", "ThL1dot"];
  }

  lemma {:induction false} LegvText()
    ensures Listed(["Leg0Xdot", "Leg0Zdot"]) == "Leg0Xdot,Leg0Zdot,"
    ensures Joined(["Leg1Xdot", "Leg1Zdot"]) == "Leg1Xdot,Leg1Zdot"
  {
    ListedTwo("Leg0Xdot", "Leg0Zdot");
    JoinedTwo("Leg1Xdot", "Leg1Zdot");
  }

  lemma {:induction false} MotvFirst()
    ensures Listed(["HipVel0", "HipVel1", "HipVel2", "HipVel3"]) == "HipVel0,HipVel1,HipVel2,HipVel3,"
  {
    ListedTwo("HipVel0", "HipVel1");
    ListedTwo("HipVel2", "HipVel3");
    assert Listed(["HipVel0", "HipVel1"]) == "HipVel0,HipVel1,";
    assert Listed(["HipVel2", "HipVel3"]) == "HipVel2,HipVel3,";
    ListedParts(["HipVel0", "HipVel1"], ["HipVel2", "HipVel3"]);
    assert ["HipVel0", "HipVel1"] + ["HipVel2", "HipVel3"] == ["HipVel0", "HipVel1", "HipVel2", "HipVel3"];
  }

  lemma {:induction false} MotvSecond()
    ensures Joined(["WheelVel0", "WheelVel1"]) == "WheelVel0,WheelVel1"
  {
    JoinedTwo("WheelVel0", "WheelVel1");
  }

  lemma {:induction false} PwrText()
    ensures Listed(["BattV", "PmonV"]) == "BattV,PmonV,"
    ensures Joined(["TotalI"]) == "TotalI"
  {
    ListedTwo("BattV", "PmonV");
  }

  lemma {:induction false} VnedText()
    ensures Listed(["XdotWorld"]) == "XdotWorld,"
    ensures Joined(["ZdotWorld"]) == "ZdotWorld"
  {
    ListedOne("XdotWorld");
  }

  lemma {:induction false} TableText(i: nat, first: string, second: string, a: seq<string>, b: seq<string>)
    requires i < 11 && LogDefs()[i].labels == Timed(first, second) && Columns(i) == ["TimeUS", "Rate"] + (a + b)
    requires Listed(a) == first && Joined(b) == second && |b| > 0
    ensures LogDefs()[i].labels == Joined(Columns(i))
  {
    TimedText(first, second, a, b);
  }

  lemma {:induction false} AttColumns(i: nat)
    requires i == 0
    ensures LogDefs()[i].labels == Joined(Columns(i))
  {
    AttFirst();
    AttSecond();
    assert ["Roll", "Pitch", "Yaw", "P", "Q", "R"] + ["Pdot", "Qdot", "Rdot"] == ["Roll", "Pitch", "Yaw", "P", "Q", "R", "Pdot", "Qdot", "Rdot"];
    TableText(i, "Roll,Pitch,Yaw,P,Q,R,", "Pdot,Qdot,Rdot", ["Roll", "Pitch", "Yaw", "P", "Q", "R"], ["Pdot", "Qdot", "Rdot"]);
  }

  lemma {:induction false} LinColumns(i: nat)
    requires i == 1
    ensures LogDefs()[i].labels == Joined(Columns(i))
  {
    LinFirst();
    LinSecond();
    assert ["X", "Y", "Z", "U", "V", "W"] + ["Udot", "Vdot", "Wdot"] == ["X", "Y", "Z", "U", "V", "W", "Udot", "Vdot", "Wdot"];
    TableText(i, "X,Y,Z,U,V,W,", "Udot,Vdot,Wdot", ["X", "Y", "Z", "U", "V", "W"], ["Udot", "Vdot", "Wdot"]);
  }

  lemma {:induction false} RcinColumns(i: nat)
    requires i == 2
    ensures LogDefs()[i].labels == Joined(Columns(i))
  {
    RcinText();
    assert ["YawStk", "VelStk", "HeightStk"] + ["LeanStk", "Armed", "Mode"] == ["YawStk", "VelStk", "HeightStk", "LeanStk", "Armed", "Mode"];
    TableText(i, "YawStk,VelStk,HeightStk,", "LeanStk,Armed,Mode", ["YawStk", "VelStk", "HeightStk"], ["LeanStk", "Armed", "Mode"]);
  }

  lemma {:induction false} OutpColumns(i: nat)
    requires i == 3
    ensures LogDefs()[i].labels == Joined(Columns(i))
  {
    OutpText();
    assert ["Tq0", "Tq1"] + ["Tq2", "Tq3"] == ["Tq0", "Tq1", "Tq2", "Tq3"];
    TableText(i, "Tq0,Tq1,", "Tq2,Tq3", ["Tq0", "Tq1"], ["Tq2", "Tq3"]);
  }

  lemma {:induction false} HipsColumns(i: nat)
    requires i == 4
    ensures LogDefs()[i].labels == Joined(Columns(i))
  {
    HipsFirst();
    HipsSecond();
    assert ["Pos0", "Pos1", "Pos2", "Pos3"] + ["Volt0", "Volt1", "Volt2", "Volt3"] == ["Pos0", "Pos1", "Pos2", "Pos3", "Volt0", "Volt1", "Volt2", "Volt3"];
    TableText(i, "Pos0,Pos1,Pos2,Pos3,", "Volt0,Volt1,Volt2,Volt3", ["Pos0", "Pos1", "Pos2", "Pos3"], ["Volt0", "Volt1", "Volt2", "Volt3"]);
  }

  lemma {:induction false} HerrColumns(i: nat)
    requires i == 5
    ensures LogDefs()[i].labels == Joined(Columns(i))
  {
    HerrText();
    assert ["Err0", "Err1"] + ["Err2", "Err3"] == ["Err0", "Err1", "Err2", "Err3"];
    TableText(i, "Err0,Err1,", "Err2,Err3", ["Err0", "Err1"], ["Err2", "Err3"]);
  }

  lemma {:induction false} LegsColumns(i: nat)
    requires i == 6
    ensures LogDefs()[i].labels == Joined(Columns(i))
  {
    LegsFirst();
    LegsSecond();
    assert ["L0", "L0dot", "ThL0", "ThL0dot"] + ["L1", "L1dot", "ThL1", "ThL1dot"] == ["L0", "L0dot", "ThL0", "ThL0dot", "L1", "L1dot", "ThL1", "ThL1dot"];
    TableText(i, "L0,L0dot,ThL0,ThL0dot,", "L1,L1dot,ThL1,ThL1dot", ["L0", "L0dot", "ThL0", "ThL0dot"], ["L1", "L1dot", "ThL1", "ThL1dot"]);
  }

  lemma {:induction false} LegvColumns(i: nat)
    requires i == 7
    ensures LogDefs()[i].labels == Joined(Columns(i))
  {
    LegvText();
    assert ["Leg0Xdot", "Leg0Zdot"] + ["Leg1Xdot", "Leg1Zdot"] == ["Leg0Xdot", "Leg0Zdot", "Leg1Xdot", "Leg1Zdot"];
    TableText(i, "Leg0Xdot,Leg0Zdot,", "Leg1Xdot,Leg1Zdot", ["Leg0Xdot", "Leg0Zdot"], ["Leg1Xdot", "Leg1Zdot"]);
  }

  lemma {:induction false} MotvColumns(i: nat)
    requires i == 8
    ensures LogDefs()[i].labels == Joined(Columns(i))
  {
    MotvFirst();
    MotvSecond();
    assert ["HipVel0", "HipVel1", "HipVel2", "HipVel3"] + ["WheelVel0", "WheelVel1"] == ["HipVel0", "HipVel1", "HipVel2", "HipVel3", "WheelVel0", "WheelVel1"];
    TableText(i, "HipVel0,HipVel1,HipVel2,HipVel3,", "WheelVel0,WheelVel1", ["HipVel0", "HipVel1", "HipVel2", "HipVel3"], ["WheelVel0", "WheelVel1"]);
  }

  lemma {:induction false} PwrColumns(i: nat)
    requires i == 9
    ensures LogDefs()[i].labels == Joined(Columns(i))
  {
    PwrText();
    assert ["BattV", "PmonV"] + ["TotalI"] == ["BattV", "PmonV", "TotalI"];
    TableText(i, "BattV,PmonV,", "TotalI", ["BattV", "PmonV"], ["TotalI"]);
  }

  lemma {:induction false} VnedColumns(i: nat)
    requires i == 10
    ensures LogDefs()[i].labels == Joined(Columns(i))
  {
    VnedText();
    assert ["XdotWorld"] + ["ZdotWorld"] == ["XdotWorld", "ZdotWorld"];
    TableText(i, "XdotWorld,", "ZdotWorld", ["XdotWorld"], ["ZdotWorld"]);
  }

  /** The text of every entry is the list of its columns. */
  lemma {:induction false} TableIsColumns(i: nat)
    requires i < 11
    ensures LogDefs()[i].labels == Joined(Columns(i))
  {
    match i
    case 0 => AttColumns(i);
    case 1 => LinColumns(i);
    case 2 => RcinColumns(i);
    case 3 => OutpColumns(i);
    case 4 => HipsColumns(i);
    case 5 => HerrColumns(i);
    case 6 => LegsColumns(i);
    case 7 => LegvColumns(i);
    case 8 => MotvColumns(i);
    case 9 => PwrColumns(i);
    case _ => VnedColumns(i);
  }

  /** A format code the decoder does not know takes up no field. */
  lemma {:induction false} UnknownCodeDropped(before: string, c: char, after: string)
    requires CodeSize(c) == 0
    ensures Layout(before + [c] + after) == Layout(before + after)
  {
    var s := before + [c] + after;
    if |before| == 0 {
      assert s[1..] == after && before + after == after;
    } else {
      assert s[1..] == before[1..] + [c] + after && (before + after)[1..] == before[1..] + after;
      UnknownCodeDropped(before[1..], c, after);
    }
  }

  lemma {:induction false} LayoutNext(c: char, rest: string)
    requires CodeSize(c) > 0
    ensures |Layout([c] + rest)| == 1 + |Layout(rest)|
  {
    assert ([c] + rest)[1..] == rest;
  }

  lemma {:induction false} FloatsCount(n: nat, rest: string)
    ensures |Layout(Repeated('f', n) + rest)| == n + |Layout(rest)|
  {
    if n == 0 {
      assert Repeated('f', 0) + rest == rest;
    } else {
      FloatsCount(n - 1, rest);
      LayoutNext('f', Repeated('f', n - 1) + rest);
      assert Repeated('f', n) + rest == ['f'] + (Repeated('f', n - 1) + rest);
    }
  }

  lemma {:induction false} BytesCount(n: nat)
    ensures |Layout(Repeated('B', n))| == n
  {
    if n > 0 {
      BytesCount(n - 1);
      LayoutNext('B', Repeated('B', n - 1));
      assert Repeated('B', n) == ['B'] + Repeated('B', n - 1);
    }
  }

  lemma {:induction false} FieldCount(floats: nat, bytes: nat)
    ensures |Layout(Codes(floats, bytes))| == 2 + floats + bytes
  {
    LayoutNext('Q', ['H'] + (Repeated('f', floats) + Repeated('B', bytes)));
    LayoutNext('H', Repeated('f', floats) + Repeated('B', bytes));
    FloatsCount(floats, Repeated('B', bytes));
    BytesCount(bytes);
  }

  lemma {:induction false} TimedLabels(words: seq<string>)
    requires AreLabels(words)
    ensures AreLabels(["TimeUS", "Rate"] + words)
  {
    assert AreLabels(["TimeUS", "Rate"]);
  }

  lemma {:induction false} AttWords1()
    ensures AreLabels(["Roll", "Pitch", "Yaw"])
  {
  }

  lemma {:induction false} AttWords2()
    ensures AreLabels(["P", "Q", "R"])
  {
  }

  lemma {:induction false} AttWords3()
    ensures AreLabels(["Pdot", "Qdot", "Rdot"])
  {
  }

  lemma {:induction false} AttLabels(i: nat)
    requires i == 0
    ensures AreLabels(Columns(i))
  {
    AttWords1();
    AttWords2();
    AttWords3();
    assert ["Roll", "Pitch", "Yaw"] + ["P", "Q", "R"] + ["Pdot", "Qdot", "Rdot"] == ["Roll", "Pitch", "Yaw", "P", "Q", "R", "Pdot", "Qdot", "Rdot"];
    TimedLabels(["Roll", "Pitch", "Yaw"] + ["P", "Q", "R"] + ["Pdot", "Qdot", "Rdot"]);
  }

  lemma {:induction false} LinWords1()
    ensures AreLabels(["X", "Y", "Z"])
  {
  }

  lemma {:induction false} LinWords2()
    ensures AreLabels(["U", "V", "W"])
  {
  }

  lemma {:induction false} LinWords3()
    ensures AreLabels(["Udot", "Vdot", "Wdot"])
  {
  }

  lemma {:induction false} LinLabels(i: nat)
    requires i == 1
    ensures AreLabels(Columns(i))
  {
    LinWords1();
    LinWords2();
    LinWords3();
    assert ["X", "Y", "Z"] + ["U", "V", "W"] + ["Udot", "Vdot", "Wdot"] == ["X", "Y", "Z", "U", "V", "W", "Udot", "Vdot", "Wdot"];
    TimedLabels(["X", "Y", "Z"] + ["U", "V", "W"] + ["Udot", "Vdot", "Wdot"]);
  }

  lemma {:induction false} RcinWords1()
    ensures AreLabels(["YawStk", "VelStk", "HeightStk"])
  {
  }

  lemma {:induction false} RcinWords2()
    ensures AreLabels(["LeanStk", "Armed", "Mode"])
  {
  }

  lemma {:induction false} RcinLabels(i: nat)
    requires i == 2
    ensures AreLabels(Columns(i))
  {
    RcinWords1();
    RcinWords2();
    assert ["YawStk", "VelStk", "HeightStk"] + ["LeanStk", "Armed", "Mode"] == ["YawStk", "VelStk", "HeightStk", "LeanStk", "Armed", "Mode"];
    TimedLabels(["YawStk", "VelStk", "HeightStk"] + ["LeanStk", "Armed", "Mode"]);
  }

  lemma {:induction false} OutpLabels(i: nat)
    requires i == 3
    ensures AreLabels(Columns(i))
  {
    TimedLabels(["Tq0", "Tq1", "Tq2", "Tq3"]);
  }

  lemma {:induction false} HipsWords1()
    ensures AreLabels(["Pos0", "Pos1", "Pos2"])
  {
  }

  lemma {:induction false} HipsWords2()
    ensures AreLabels(["Pos3", "Volt0", "Volt1"])
  {
  }

  lemma {:induction false} HipsWords3()
    ensures AreLabels(["Volt2", "Volt3"])
  {
  }

  lemma {:induction false} HipsLabels(i: nat)
    requires i == 4
    ensures AreLabels(Columns(i))
  {
    HipsWords1();
    HipsWords2();
    HipsWords3();
    assert ["Pos0", "Pos1", "Pos2"] + ["Pos3", "Volt0", "Volt1"] + ["Volt2", "Volt3"] == ["Pos0", "Pos1", "Pos2", "Pos3", "Volt0", "Volt1", "Volt2", "Volt3"];
    TimedLabels(["Pos0", "Pos1", "Pos2"] + ["Pos3", "Volt0", "Volt1"] + ["Volt2", "Volt3"]);
  }

  lemma {:induction false} HerrLabels(i: nat)
    requires i == 5
    ensures AreLabels(Columns(i))
  {
    TimedLabels(["Err0", "Err1", "Err2", "Err3"]);
  }

  lemma {:induction false} LegsWords1()
    ensures AreLabels(["L0", "L0dot", "ThL0"])
  {
  }

  lemma {:induction false} LegsWords2()
    ensures AreLabels(["ThL0dot", "L1", "L1dot"])
  {
  }

  lemma {:induction false} LegsWords3()
    ensures AreLabels(["ThL1", "ThL1dot"])
  {
  }

  lemma {:induction false} LegsLabels(i: nat)
    requires i == 6
    ensures AreLabels(Columns(i))
  {
    LegsWords1();
    LegsWords2();
    LegsWords3();
    assert ["L0", "L0dot", "ThL0"] + ["ThL0dot", "L1", "L1dot"] + ["ThL1", "ThL1dot"] == ["L0", "L0dot", "ThL0", "ThL0dot", "L1", "L1dot", "ThL1", "ThL1dot"];
    TimedLabels(["L0", "L0dot", "ThL0"] + ["ThL0dot", "L1", "L1dot"] + ["ThL1", "ThL1dot"]);
  }

  lemma {:induction false} LegvLabels(i: nat)
    requires i == 7
    ensures AreLabels(Columns(i))
  {
    TimedLabels(["Leg0Xdot", "Leg0Zdot", "Leg1Xdot", "Leg1Zdot"]);
  }

  lemma {:induction false} MotvWords1()
    ensures AreLabels(["HipVel0", "HipVel1", "HipVel2"])
  {
  }

  lemma {:induction false} MotvWords2()
    ensures AreLabels(["HipVel3", "WheelVel0", "WheelVel1"])
  {
  }

  lemma {:induction false} MotvLabels(i: nat)
    requires i == 8
    ensures AreLabels(Columns(i))
  {
    MotvWords1();
    MotvWords2();
    assert ["HipVel0", "HipVel1", "HipVel2"] + ["HipVel3", "WheelVel0", "WheelVel1"] == ["HipVel0", "HipVel1", "HipVel2", "HipVel3", "WheelVel0", "WheelVel1"];
    TimedLabels(["HipVel0", "HipVel1", "HipVel2"] + ["HipVel3", "WheelVel0", "WheelVel1"]);
  }

  lemma {:induction false} PwrLabels(i: nat)
    requires i == 9
    ensures AreLabels(Columns(i))
  {
    TimedLabels(["BattV", "PmonV", "TotalI"]);
  }

  lemma {:induction false} VnedLabels(i: nat)
    requires i == 10
    ensures AreLabels(Columns(i))
  {
    TimedLabels(["XdotWorld", "ZdotWorld"]);
  }

  lemma {:induction false} ColumnsAreLabels(i: nat)
    requires i < 11
    ensures AreLabels(Columns(i))
  {
    match i
    case 0 => AttLabels(i);
    case 1 => LinLabels(i);
    case 2 => RcinLabels(i);
    case 3 => OutpLabels(i);
    case 4 => HipsLabels(i);
    case 5 => HerrLabels(i);
    case 6 => LegsLabels(i);
    case 7 => LegvLabels(i);
    case 8 => MotvLabels(i);
    case 9 => PwrLabels(i);
    case _ => VnedLabels(i);
  }

  lemma {:induction false} ColumnCount(i: nat)
    requires i < 11
    ensures |Columns(i)| == 2 + Values(i).0 + Values(i).1
  {
  }

  /**
   For every type of the table the decoder's labels are exactly its columns, in order, and there are as
   many of them as fields in a row: label k stands over field k.
   */
  lemma {:induction false} RobotColumns(i: nat, d: LogDef, schema: Schema)
    requires i < 11 && d == LogDefs()[i] && schema == Collected(LogDefs(), map[])
    ensures d.id in schema && schema[d.id].labels == Columns(i) && |Columns(i)| == |schema[d.id].layout|
  {
    TableWellFormed();
    SchemaOfTable(LogDefs(), d.id);
    EntryColumns(d, i);
  }

  lemma {:induction false} EntryColumns(d: LogDef, i: nat)
    requires i < 11 && d == LogDefs()[i]
    ensures EntryOf(d).labels == Columns(i) && |EntryOf(d).labels| == |EntryOf(d).layout|
  {
    TableIsColumns(i);
    EntryShape(i);
    FieldCount(Values(i).0, Values(i).1);
    ColumnCount(i);
    ColumnsAreLabels(i);
    LabelsRoundTrip(Columns(i));
  }
}
