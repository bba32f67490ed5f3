/** The application's own part: one output row for each relay of the netlist. */
module RelayConversion {
  import opened Sequences
  import opened Strings
  import opened Numerals
  import opened Powers

  datatype NetlistData = NetlistData(
    name: seq<string>, identifier: seq<string>, connection: seq<string>, device: seq<string>)
  {
    /** The columns are parallel: the code indexes `identifier` by the rows of `name`, and `identifier` and `connection` by
        those of `device`. */
    predicate Parallel() {
      |name| <= |identifier| && |device| <= |identifier| && |device| <= |connection|
    }
  }

  datatype ModelData = ModelData(relayModel: string, driveStrength: string)

  datatype IOData = IOData(identifier: string, position: int)

  datatype Input = Input(
    boardType: string,
    ioData: seq<IOData>,
    netlistData: seq<NetlistData>,
    relayList: seq<NetlistData>,
    modelData: seq<ModelData>)
  {
    predicate Ok() {
      && AllParallel(netlistData)
      && (forall i | 0 <= i < |relayList| :: relayList[i].Parallel() && relayList[i].name != [])
    }
  }

  predicate AllParallel(netlist: seq<NetlistData>) {
    forall i | 0 <= i < |netlist| :: netlist[i].Parallel()
  }

  datatype RelayData = RelayData(
    relayName: string, chainNumber: int, deviceNumber: int, normalState: string, driveStrength: string)

  const EXPANDER := "MAX6957ATL_TQFN-40-MAX6957ATL+"

  // ---------------------------------------------------------------- the rules, as stated

  predicate IsRelay(models: seq<ModelData>, device: string) {
    exists j | 0 <= j < |models| :: Contains(device, models[j].relayModel)
  }

  /** The name of the ground net. */
  function Ground(): string {
    "GND"
  }

  /** The net list connects the part to ground: what makes a resistor a pull-down. */
  predicate PulledDown(netlist: seq<NetlistData>, id: string) {
    PulledDownIn(netlist, id, |netlist|)
  }

  /** One of the first n groups does. */
  predicate PulledDownIn(netlist: seq<NetlistData>, id: string, n: nat)
    requires n <= |netlist|
  {
    exists j | 0 <= j < n :: Grounds(netlist[j], id)
  }

  predicate Grounds(d: NetlistData, id: string) {
    exists k | 0 <= k < |d.name| && k < |d.identifier| :: d.identifier[k] == id && d.name[k] == Ground()
  }

  /** The nets the part is connected to, in netlist order. */
  function NetsOf(d: NetlistData, id: string, n: nat): seq<string>
    requires n <= |d.name| && n <= |d.identifier|
  {
    if n == 0 then []
    else NetsOf(d, id, n - 1) + if d.identifier[n - 1] == id then [d.name[n - 1]] else []
  }

  function Nets(netlist: seq<NetlistData>, id: string, n: nat): seq<string>
    requires n <= |netlist| && AllParallel(netlist)
  {
    if n == 0 then []
    else Nets(netlist, id, n - 1) + NetsOf(netlist[n - 1], id, |netlist[n - 1].name|)
  }

  /** Among the first n devices on the relay's connection the last resistor is the one at m. */
  ghost predicate LastResistorAt(r: NetlistData, n: nat, m: nat) {
    && m < n <= |r.device| && Contains(r.device[m], "RESISTOR")
    && forall i | m < i < n :: !Contains(r.device[i], "RESISTOR")
  }

  /** Among the first n devices there is a relay model, and the last resistor has a name. */
  ghost predicate BothSeen(models: seq<ModelData>, r: NetlistData, n: nat)
    requires n <= |r.device| && r.Parallel()
  {
    && (exists m: nat :: LastResistorAt(r, n, m) && r.identifier[m] != "")
    && (exists i | 0 <= i < n :: IsRelay(models, r.device[i]))
  }

  /** The search settles on the resistor at m: the last one when, n devices in, both are first present. */
  ghost predicate Settled(models: seq<ModelData>, r: NetlistData, n: nat, m: nat)
    requires r.Parallel()
  {
    && LastResistorAt(r, n, m) && BothSeen(models, r, n)
    && forall n' | 0 <= n' < n :: !BothSeen(models, r, n')
  }

  ghost predicate Chosen(models: seq<ModelData>, r: NetlistData, id: string)
    requires r.Parallel()
  {
    exists n: nat, m: nat :: Settled(models, r, n, m) && id == r.identifier[m]
  }

  lemma {:induction false} NetsOfMeaning(d: NetlistData, id: string, n: nat)
    requires n <= |d.name| && n <= |d.identifier|
    ensures Ground() in NetsOf(d, id, n) <==> exists k | 0 <= k < n :: d.identifier[k] == id && d.name[k] == Ground()
  {
    if n > 0 {
      NetsOfMeaning(d, id, n - 1);
    }
  }

  // The list of nets says what the declarative rule says.
  lemma {:induction false} NetsMeaning(netlist: seq<NetlistData>, id: string, n: nat)
    requires n <= |netlist| && AllParallel(netlist)
    ensures Ground() in Nets(netlist, id, n) <==> PulledDownIn(netlist, id, n)
  {
    if n > 0 {
      var d := netlist[n - 1];
      NetsMeaning(netlist, id, n - 1);
      NetsOfMeaning(d, id, |d.name|);
      assert Ground() in NetsOf(d, id, |d.name|) <==> Grounds(d, id);
      assert Nets(netlist, id, n) == Nets(netlist, id, n - 1) + NetsOf(d, id, |d.name|);
      hide Nets, NetsOf, Grounds, Ground;
    }
  }

  /** What the early exit leaves of the nets: it looks at no more than two. */
  function FirstTwo(nets: seq<string>): seq<string> {
    if |nets| <= 2 then nets else nets[..2]
  }

  /** The search and the rule agree exactly when ground is not hidden behind two other nets. */
  lemma SearchMeetsRule(netlist: seq<NetlistData>, id: string)
    requires AllParallel(netlist)
    ensures var nets := Nets(netlist, id, |netlist|);
            && ((Ground() in FirstTwo(nets) <==> PulledDown(netlist, id))
                <==> (|nets| <= 2 || Ground() in nets[..2] || Ground() !in nets[2..]))
    ensures |Nets(netlist, id, |netlist|)| <= 2 ==>
              (Ground() in FirstTwo(Nets(netlist, id, |netlist|)) <==> PulledDown(netlist, id))
  {
    NetsMeaning(netlist, id, |netlist|);
    var nets := Nets(netlist, id, |netlist|);
    if |nets| > 2 {
      assert nets == nets[..2] + nets[2..];
    }
  }

  // ---------------------------------------------------------------- the conversions

  // What has been looked at is the front of the whole list.
  lemma {:induction false} PrefixOf(netlist: seq<NetlistData>, id: string, j: nat, k: nat)
    requires AllParallel(netlist)
    requires j < |netlist| && k <= |netlist[j].name|
    ensures Nets(netlist, id, j) + NetsOf(netlist[j], id, k) <= Nets(netlist, id, |netlist|)
  {
    NetsOfGrow(netlist[j], id, k, |netlist[j].name|);
    NetsGrow(netlist, id, j + 1, |netlist|);
  }

  lemma {:induction false} NetsOfGrow(d: NetlistData, id: string, k: nat, n: nat)
    requires k <= n <= |d.name| && n <= |d.identifier|
    ensures NetsOf(d, id, k) <= NetsOf(d, id, n)
  {
    if k < n {
      NetsOfGrow(d, id, k, n - 1);
    }
  }

  lemma {:induction false} NetsGrow(netlist: seq<NetlistData>, id: string, j: nat, n: nat)
    requires j <= n <= |netlist| && AllParallel(netlist)
    ensures Nets(netlist, id, j) <= Nets(netlist, id, n)
  {
    if j < n {
      NetsGrow(netlist, id, j, n - 1);
    }
  }

  // Ground as the next net after at most one other decides the search; so does a second other net.
  lemma Decide(seen: seq<string>, name: string, nets: seq<string>)
    requires |seen| < 2 && Ground() !in seen && seen + [name] <= nets
    ensures name == Ground() ==> Ground() in FirstTwo(nets)
    ensures name != Ground() ==> Ground() !in seen + [name] && (|seen| == 1 ==> Ground() !in FirstTwo(nets))
  {
    hide Ground;
    var more := seen + [name];
    assert FirstTwo(nets)[|seen|] == more[|seen|] == name;
    if |seen| == 1 {
      assert FirstTwo(nets) == more;
    }
  }

  /** The part's nets in front of entry k of row j. */
  function Seen(netlist: seq<NetlistData>, id: string, j: nat, k: nat): seq<string>
    requires AllParallel(netlist) && j <= |netlist| && k <= if j < |netlist| then |netlist[j].name| else 0
  {
    Nets(netlist, id, j) + if j < |netlist| then NetsOf(netlist[j], id, k) else []
  }

  lemma SeenMore(netlist: seq<NetlistData>, id: string, j: nat, k: nat)
    requires AllParallel(netlist) && j < |netlist| && k < |netlist[j].name|
    ensures Seen(netlist, id, j, k + 1) <= Nets(netlist, id, |netlist|)
    ensures netlist[j].identifier[k] == id ==>
              Seen(netlist, id, j, k + 1) == Seen(netlist, id, j, k) + [netlist[j].name[k]]
    ensures netlist[j].identifier[k] != id ==> Seen(netlist, id, j, k + 1) == Seen(netlist, id, j, k)
  {
    var d := netlist[j];
    PrefixOf(netlist, id, j, k + 1);
    assert NetsOf(d, id, k + 1) == NetsOf(d, id, k) + if d.identifier[k] == id then [d.name[k]] else [];
    hide Nets, NetsOf;
    Assoc(Nets(netlist, id, j), NetsOf(d, id, k), [d.name[k]]);
  }

  /** Fewer than two nets have been seen, and none of them was ground. */
  ghost predicate Undecided(netlist: seq<NetlistData>, id: string, j: nat, k: nat, tracker: nat)
    requires AllParallel(netlist) && j <= |netlist| && k <= if j < |netlist| then |netlist[j].name| else 0
  {
    |Seen(netlist, id, j, k)| == tracker < 2 && Ground() !in Seen(netlist, id, j, k)
  }

  lemma LookAt(netlist: seq<NetlistData>, id: string, j: nat, k: nat, tracker: nat)
    requires AllParallel(netlist) && j < |netlist| && k < |netlist[j].name|
    requires Undecided(netlist, id, j, k, tracker)
    ensures var decided := FirstTwo(Nets(netlist, id, |netlist|));
            if netlist[j].identifier[k] != id then Undecided(netlist, id, j, k + 1, tracker)
            else if netlist[j].name[k] == Ground() then Ground() in decided
            else if tracker + 1 == 2 then Ground() !in decided
            else Undecided(netlist, id, j, k + 1, tracker + 1)
  {
    hide Nets, NetsOf, Seen, FirstTwo, Ground;
    SeenMore(netlist, id, j, k);
    if netlist[j].identifier[k] == id {
      Decide(Seen(netlist, id, j, k), netlist[j].name[k], Nets(netlist, id, |netlist|));
    }
  }

  lemma LookedAtRow(netlist: seq<NetlistData>, id: string, j: nat, tracker: nat)
    requires AllParallel(netlist)
    ensures Undecided(netlist, id, 0, 0, 0)
    ensures j < |netlist| && Undecided(netlist, id, j, |netlist[j].name|, tracker) ==>
              Undecided(netlist, id, j + 1, 0, tracker)
    ensures Undecided(netlist, id, |netlist|, 0, tracker) ==> Ground() !in FirstTwo(Nets(netlist, id, |netlist|))
  {
    assert forall list: seq<string> :: list + [] == list;
  }

  /** The nested search for a ground connection; it gives up after two other connections. */
  method FindGround(netlist: seq<NetlistData>, id: string) returns (gndConnection: bool)
    requires AllParallel(netlist)
    ensures gndConnection <==> Ground() in FirstTwo(Nets(netlist, id, |netlist|))
  {
    hide Undecided, Nets, FirstTwo, Ground;
    gndConnection := false;
    var tracker := 0;
    var j := 0;
    LookedAtRow(netlist, id, 0, 0);
    while j < |netlist|
      invariant 0 <= j <= |netlist| && !gndConnection && tracker < 2 && Undecided(netlist, id, j, 0, tracker)
    {
      var k := 0;
      while k < |netlist[j].name|
        invariant 0 <= k <= |netlist[j].name| && !gndConnection && tracker < 2 && Undecided(netlist, id, j, k, tracker)
      {
        LookAt(netlist, id, j, k, tracker);
        if netlist[j].identifier[k] == id {
          if netlist[j].name[k] == Ground() {
            gndConnection := true;
            break;
          }
          tracker := tracker + 1;
          if tracker == 2 {
            break;
          }
        }
        k := k + 1;
      }
      if gndConnection || tracker == 2 {
        break;
      }
      LookedAtRow(netlist, id, j, tracker);
      j := j + 1;
    }
    if !gndConnection && tracker < 2 {
      LookedAtRow(netlist, id, 0, tracker);
    }
  }

  method SeesRelay(models: seq<ModelData>, device: string) returns (present: bool)
    ensures present <==> IsRelay(models, device)
  {
    present := false;
    for j := 0 to |models|
      invariant !present && forall j' | 0 <= j' < j :: !Contains(device, models[j'].relayModel)
    {
      if Contains(device, models[j].relayModel) {
        return true;
      }
    }
  }

  /** Normally closed exactly when a relay model and a resistor are on the connection and the search finds the
      chosen resistor on ground. */
  method ConvertNormalState(input: Input, r: NetlistData) returns (normalState: string)
    requires input.Ok() && r.Parallel()
    ensures normalState == "RELAY_NC" || normalState == "RELAY_NO"
    ensures normalState == "RELAY_NC" <==> NormallyClosed(input, r)
    ensures normalState == "RELAY_NC" <==>
            exists n: nat, m: nat :: Settled(input.modelData, r, n, m)
              && Ground() in FirstTwo(Nets(input.netlistData, r.identifier[m], |input.netlistData|))
  {
    hide Nets, FirstTwo, Ground, IsRelay;
    normalState := "RELAY_NO";
    var resistorIdentifier := "";
    var presentRelay := false;
    ghost var last: nat := 0;
    var i := 0;
    while i < |r.device|
      invariant 0 <= i <= |r.device| && normalState == "RELAY_NO"
      invariant if resistorIdentifier != "" then LastResistorAt(r, i, last) && resistorIdentifier == r.identifier[last]
                else forall m: nat | LastResistorAt(r, i, m) :: r.identifier[m] == ""
      invariant presentRelay <==> exists i' | 0 <= i' < i :: IsRelay(input.modelData, r.device[i'])
      invariant forall m | 0 <= m <= i :: !BothSeen(input.modelData, r, m)
    {
      if Contains(r.device[i], "RESISTOR") {
        resistorIdentifier, last := r.identifier[i], i;
      }
      LastOneMore(r, i + 1);
      var here := SeesRelay(input.modelData, r.device[i]);
      if here {
        presentRelay := true;
      }
      if presentRelay && resistorIdentifier != "" {
        assert BothSeen(input.modelData, r, i + 1);
        assert Settled(input.modelData, r, i + 1, last);
        SettledOnce(input.modelData, r, i + 1, last);
        var gndConnection := FindGround(input.netlistData, resistorIdentifier);
        if gndConnection {
          normalState := "RELAY_NC";
        }
        return;
      }
      i := i + 1;
    }
  }

  ghost predicate NormallyClosed(input: Input, r: NetlistData)
    requires input.Ok() && r.Parallel()
  {
    exists id :: Chosen(input.modelData, r, id)
      && Ground() in FirstTwo(Nets(input.netlistData, id, |input.netlistData|))
  }

  lemma LastOneMore(r: NetlistData, n: nat)
    requires 0 < n <= |r.device|
    ensures Contains(r.device[n - 1], "RESISTOR") ==>
              LastResistorAt(r, n, n - 1) && forall m: nat | LastResistorAt(r, n, m) :: m == n - 1
    ensures !Contains(r.device[n - 1], "RESISTOR") ==>
              forall m: nat :: LastResistorAt(r, n, m) <==> LastResistorAt(r, n - 1, m)
  {
  }

  lemma SettledOnce(models: seq<ModelData>, r: NetlistData, n: nat, m: nat)
    requires r.Parallel() && Settled(models, r, n, m)
    ensures forall n', m' | Settled(models, r, n', m') :: n' == n && m' == m
  {
  }

  lemma ChosenUnique(models: seq<ModelData>, r: NetlistData, id: string)
    requires r.Parallel() && Chosen(models, r, id)
    ensures forall id' :: Chosen(models, r, id') ==> id' == id
  {
    var n: nat, m: nat :| Settled(models, r, n, m) && id == r.identifier[m];
    SettledOnce(models, r, n, m);
  }

  /** Ground is among the part's nets, but behind two others. */
  ghost predicate GroundHidden(netlist: seq<NetlistData>, id: string)
    requires AllParallel(netlist)
  {
    var nets := Nets(netlist, id, |netlist|);
    |nets| > 2 && Ground() !in nets[..2] && Ground() in nets[2..]
  }

  /** The declarative rule: a relay and a resistor on the connection, and the chosen resistor pulled down. */
  ghost predicate PullDownRule(input: Input, r: NetlistData)
    requires input.Ok() && r.Parallel()
  {
    exists id :: Chosen(input.modelData, r, id) && PulledDown(input.netlistData, id)
  }

  /** The result is that of the rule exactly when the chosen resistor, if there is one, has no ground hidden behind two
      other nets; so whenever it is on at most two nets. */
  lemma NormallyClosedRule(input: Input, r: NetlistData)
    requires input.Ok() && r.Parallel()
    ensures (NormallyClosed(input, r) <==> PullDownRule(input, r))
            <==> forall id | Chosen(input.modelData, r, id) :: !GroundHidden(input.netlistData, id)
    ensures (forall id | Chosen(input.modelData, r, id) :: |Nets(input.netlistData, id, |input.netlistData|)| <= 2)
            ==> (NormallyClosed(input, r) <==> PullDownRule(input, r))
  {
    if id :| Chosen(input.modelData, r, id) {
      ChosenUnique(input.modelData, r, id);
      SearchMeetsRule(input.netlistData, id);
      HiddenMissed(input.netlistData, id);
      hide Chosen, Nets, PulledDown, FirstTwo, GroundHidden;
    }
  }

  lemma HiddenMissed(netlist: seq<NetlistData>, id: string)
    requires AllParallel(netlist)
    ensures GroundHidden(netlist, id) <==>
              !(Ground() in FirstTwo(Nets(netlist, id, |netlist|)) <==> PulledDown(netlist, id))
    ensures |Nets(netlist, id, |netlist|)| <= 2 ==> !GroundHidden(netlist, id)
  {
    SearchMeetsRule(netlist, id);
  }

  /** A netlist as it is read: one group for each net.  The pull-down of the relay's net is a part on three nets, and ground
      comes last. */
  function ThreeNets(): Input {
    var relayNet := NetlistData(["SIG", "SIG", "SIG"], ["K1", "R1", "U1"], ["2", "1", "8"],
                                ["9901-05-20", "RESISTOR", EXPANDER]);
    var supply := NetlistData(["VCC"], ["R1"], ["2"], ["RESISTOR"]);
    var ground := NetlistData(["GND"], ["R1"], ["3"], ["RESISTOR"]);
    Input("Power", [IOData("U1", 1)], [relayNet, supply, ground], [relayNet], [ModelData("9901-05-20", "CONFIG_LED_18p0_mA")])
  }

  lemma Absent(s: string, sub: string)
    requires sub != "" && sub[0] !in s
    ensures !Contains(s, sub)
  {
    forall i | 0 <= i <= |s| - |sub|
      ensures !OccursAt(s, sub, i)
    {
      assert s[i] != sub[0];
      assert i + |sub| <= |s| ==> s[i..i + |sub|][0] == s[i];
    }
  }

  // Its ground is missed, and the relay is taken to be normally open.
  lemma ThirdNetMissed()
    ensures var input := ThreeNets();
            && input.Ok() && PullDownRule(input, input.relayList[0]) && !NormallyClosed(input, input.relayList[0])
  {
    var input := ThreeNets();
    var r := input.relayList[0];
    ThreeNetsChosen();
    ThreeNetsHidden();
    hide NormallyClosed, GroundHidden, PulledDown, Chosen, Nets, NetsOf, FirstTwo;
    NormallyClosedRule(input, r);
  }

  lemma ThreeNetsHidden()
    ensures var netlist := ThreeNets().netlistData;
            AllParallel(netlist) && GroundHidden(netlist, "R1") && PulledDown(netlist, "R1")
  {
    ThreeNetsOfR1();
    hide ThreeNets;
    HiddenThird(ThreeNets().netlistData, "R1");
  }

  lemma HiddenThird(netlist: seq<NetlistData>, id: string)
    requires AllParallel(netlist) && Nets(netlist, id, |netlist|) == ["SIG", "VCC", "GND"]
    ensures GroundHidden(netlist, id) && PulledDown(netlist, id)
  {
    NetsMeaning(netlist, id, |netlist|);
    hide Nets, PulledDownIn;
    var nets := ["SIG", "VCC", "GND"];
    assert nets[..2] == ["SIG", "VCC"] && nets[2..] == ["GND"];
    assert nets[2] == Ground();
  }

  lemma ThreeNetsChosen()
    ensures var input := ThreeNets(); input.relayList[0].Parallel() && Chosen(input.modelData, input.relayList[0], "R1")
  {
    var input := ThreeNets();
    var r := input.relayList[0];
    Absent("9901-05-20", "RESISTOR");
    assert OccursAt("RESISTOR", "RESISTOR", 0);
    assert OccursAt("9901-05-20", input.modelData[0].relayModel, 0);
    assert IsRelay(input.modelData, r.device[0]);
    assert LastResistorAt(r, 2, 1);
    assert BothSeen(input.modelData, r, 2);
    assert !BothSeen(input.modelData, r, 0) && !BothSeen(input.modelData, r, 1);
    assert Settled(input.modelData, r, 2, 1);
  }

  lemma ThreeNetsOfR1()
    ensures var netlist := ThreeNets().netlistData;
            AllParallel(netlist) && |netlist| == 3 && Nets(netlist, "R1", 3) == ["SIG", "VCC", "GND"]
  {
    var netlist := ThreeNets().netlistData;
    hide Ground;
    assert NetsOf(netlist[0], "R1", 1) == [];
    assert NetsOf(netlist[0], "R1", 2) == ["SIG"];
    assert NetsOf(netlist[0], "R1", 3) == ["SIG"];
    assert NetsOf(netlist[1], "R1", 0) == [] && NetsOf(netlist[1], "R1", 1) == ["VCC"];
    assert NetsOf(netlist[2], "R1", 0) == [] && NetsOf(netlist[2], "R1", 1) == ["GND"];
    assert Nets(netlist, "R1", 0) == [];
    assert Nets(netlist, "R1", 1) == ["SIG"];
    assert Nets(netlist, "R1", 2) == ["SIG", "VCC"];
  }

  // Of two resistors in front of the relay the second one decides, here the one on ground.
  lemma LastResistorDecides()
    ensures var relayNet := NetlistData(["SIG", "SIG", "SIG"], ["R1", "R2", "K1"], ["1", "1", "2"],
                                        ["RESISTOR", "RESISTOR", "9901-05-20"]);
            var ground := NetlistData(["GND"], ["R2"], ["2"], ["RESISTOR"]);
            var input := Input("Power", [], [relayNet, ground], [relayNet], [ModelData("9901-05-20", "CONFIG_OUT")]);
            && input.Ok() && NormallyClosed(input, relayNet) && Chosen(input.modelData, relayNet, "R2")
            && !PulledDown(input.netlistData, "R1")
  {
    var r := NetlistData(["SIG", "SIG", "SIG"], ["R1", "R2", "K1"], ["1", "1", "2"], ["RESISTOR", "RESISTOR", "9901-05-20"]);
    var ground := NetlistData(["GND"], ["R2"], ["2"], ["RESISTOR"]);
    var input := Input("Power", [], [r, ground], [r], [ModelData("9901-05-20", "CONFIG_OUT")]);
    SecondSettled(input, r);
    SecondOnGround(r, ground);
    hide Chosen, Settled, Nets, NetsOf, IsRelay;
    assert ["SIG", "GND"][1] == Ground();
  }

  lemma SecondOnGround(r: NetlistData, ground: NetlistData)
    requires r.Parallel() && r.name == ["SIG", "SIG", "SIG"] && r.identifier == ["R1", "R2", "K1"]
    requires ground.Parallel() && ground.name == ["GND"] && ground.identifier == ["R2"]
    ensures AllParallel([r, ground]) && Nets([r, ground], "R2", 2) == ["SIG", "GND"]
  {
    assert NetsOf(r, "R2", 0) == [] && NetsOf(r, "R2", 1) == [] && NetsOf(r, "R2", 2) == ["SIG"] && NetsOf(r, "R2", 3) == ["SIG"];
    assert NetsOf(ground, "R2", 0) == [] && NetsOf(ground, "R2", 1) == ["GND"];
    assert Nets([r, ground], "R2", 0) == [] && Nets([r, ground], "R2", 1) == ["SIG"];
  }

  lemma SecondSettled(input: Input, r: NetlistData)
    requires r.Parallel() && r.device == ["RESISTOR", "RESISTOR", "9901-05-20"] && r.identifier[..2] == ["R1", "R2"]
    requires input.modelData == [ModelData("9901-05-20", "CONFIG_OUT")]
    ensures Settled(input.modelData, r, 3, 1) && r.identifier[1] == "R2" && Chosen(input.modelData, r, "R2")
  {
    Absent("9901-05-20", "RESISTOR");
    Absent("RESISTOR", "9901-05-20");
    assert OccursAt("RESISTOR", "RESISTOR", 0);
    assert OccursAt("9901-05-20", input.modelData[0].relayModel, 0);
    assert IsRelay(input.modelData, r.device[2]) && !IsRelay(input.modelData, "RESISTOR");
    hide Contains, IsRelay;
    assert r.identifier[1] == r.identifier[..2][1] == "R2";
    assert LastResistorAt(r, 3, 1);
    assert BothSeen(input.modelData, r, 3);
    assert forall n' | 0 <= n' < 3 :: !BothSeen(input.modelData, r, n');
  }

  /** The strength of the first model that matches the device; CONFIG_OUT if none does. */
  ghost predicate StrengthOf(models: seq<ModelData>, device: string, strength: string) {
    if IsRelay(models, device) then
      exists j | 0 <= j < |models| ::
        && Contains(device, models[j].relayModel) && models[j].driveStrength == strength
        && forall j' | 0 <= j' < j :: !Contains(device, models[j'].relayModel)
    else strength == "CONFIG_OUT"
  }

  /** The first device whose model asks for something other than CONFIG_OUT decides. */
  ghost predicate DrivenBy(models: seq<ModelData>, devices: seq<string>, strength: string) {
    if strength == "CONFIG_OUT" then
      forall i | 0 <= i < |devices| :: StrengthOf(models, devices[i], "CONFIG_OUT")
    else
      exists i | 0 <= i < |devices| ::
        && StrengthOf(models, devices[i], strength)
        && forall i' | 0 <= i' < i :: StrengthOf(models, devices[i'], "CONFIG_OUT")
  }

  method ConvertDriveStrength(input: Input, r: NetlistData) returns (driveStrength: string)
    ensures DrivenBy(input.modelData, r.device, driveStrength)
  {
    driveStrength := "CONFIG_OUT";
    var i := 0;
    while i < |r.device|
      invariant 0 <= i <= |r.device| && driveStrength == "CONFIG_OUT"
      invariant forall i' | 0 <= i' < i :: StrengthOf(input.modelData, r.device[i'], "CONFIG_OUT")
    {
      var j := 0;
      while j < |input.modelData|
        invariant 0 <= j <= |input.modelData| && driveStrength == "CONFIG_OUT"
        invariant forall j' | 0 <= j' < j :: !Contains(r.device[i], input.modelData[j'].relayModel)
      {
        if Contains(r.device[i], input.modelData[j].relayModel) {
          driveStrength := input.modelData[j].driveStrength;
          break;
        }
        j := j + 1;
      }
      assert StrengthOf(input.modelData, r.device[i], driveStrength);
      if driveStrength != "CONFIG_OUT" {
        break;
      }
      i := i + 1;
    }
  }

  /** Unknown board types leave the number uninitialised. */
  method ConvertChain(input: Input) returns (chainNumber: int)
    ensures input.boardType == "Power" ==> chainNumber == 0
    ensures input.boardType == "Precision" ==> chainNumber == 1
  {
    if input.boardType == "Power" {
      chainNumber := 0;
    } else if input.boardType == "Precision" {
      chainNumber := 1;
    } else {
      chainNumber := *;
    }
  }

  /** The first expander pin on the relay's connection. */
  ghost predicate ExpanderAt(r: NetlistData, i: nat)
    requires r.Parallel()
  {
    i < |r.device| && r.device[i] == EXPANDER && forall i' | 0 <= i' < i :: r.device[i'] != EXPANDER
  }

  /** The first listed expander of that identifier. */
  ghost predicate ListedAt(ioData: seq<IOData>, id: string, j: nat) {
    j < |ioData| && ioData[j].identifier == id && forall j' | 0 <= j' < j :: ioData[j'].identifier != id
  }

  /** Without a listed expander the number is left uninitialised. */
  method ConvertDevice(input: Input, r: NetlistData, deviceModifier: int) returns (deviceNumber: int)
    requires r.Parallel()
    ensures forall i: nat, j: nat | ExpanderAt(r, i) && ListedAt(input.ioData, r.identifier[i], j) ::
              deviceNumber == input.ioData[j].position + deviceModifier
  {
    deviceNumber := *;
    var i := 0;
    while i < |r.device|
      invariant 0 <= i <= |r.device| && forall i' | 0 <= i' < i :: r.device[i'] != EXPANDER
    {
      if r.device[i] == EXPANDER {
        var j := 0;
        while j < |input.ioData|
          invariant 0 <= j <= |input.ioData| && forall j' | 0 <= j' < j :: input.ioData[j'].identifier != r.identifier[i]
        {
          if input.ioData[j].identifier == r.identifier[i] {
            deviceNumber := input.ioData[j].position + deviceModifier;
            break;
          }
          j := j + 1;
        }
        break;
      }
      i := i + 1;
    }
  }

  // ---------------------------------------------------------------- stoi

  predicate IsBlank(c: char) {
    c == ' ' || ('\t' <= c <= '\r')
  }

  function SkipBlanks(s: string): (rest: string)
    ensures rest == "" || !IsBlank(rest[0])
  {
    if s != "" && IsBlank(s[0]) then SkipBlanks(s[1..]) else s
  }

  /** std::stoi: None where it throws, for want of a digit or because the number does not fit an int. */
  function Stoi(s: string): Option<int> {
    var t := SkipBlanks(s);
    var negative := t != "" && t[0] == '-';
    var digits := if t != "" && (t[0] == '-' || t[0] == '+') then t[1..] else t;
    if digits == "" || !IsDigit(digits[0]) then None
    else
      var magnitude: int := ReadNumber(0, digits).0;
      var n: int := if negative then -magnitude else magnitude;
      if -0x8000_0000 <= n < 0x8000_0000 then Some(n) else None
  }

  predicate AllBlank(s: string) {
    forall i | 0 <= i < |s| :: s[i] in " \t\n\r" || s[i] as int == 11 || s[i] as int == 12
  }

  // Leading white space is skipped, all of it.
  lemma {:induction false} BlanksSkipped(blanks: string, s: string)
    requires AllBlank(blanks) && (s == "" || !IsBlank(s[0]))
    ensures SkipBlanks(blanks + s) == s
  {
    if blanks != "" {
      assert IsBlank(blanks[0]);
      assert (blanks + s)[1..] == blanks[1..] + s;
      BlanksSkipped(blanks[1..], s);
    } else {
      assert blanks + s == s;
    }
  }

  /** White space, a sign, digits and anything else are read as the decimal number with its sign, if an int can hold it;
      without a digit, or out of range, the call throws. */
  lemma StoiMeaning(blanks: string, sign: string, digits: string, rest: string)
    requires AllBlank(blanks) && sign in {"", "-", "+"} && AllDigits(digits) && (rest == "" || !IsDigit(rest[0]))
    requires sign == digits == "" && rest != "" ==> rest[0] != '-' && rest[0] != '+' && !IsBlank(rest[0])
    ensures var magnitude: int := Numeral(10, DigitValues(digits));
            var n := if sign == "-" then -magnitude else magnitude;
            Stoi(blanks + (sign + (digits + rest)))
            == if digits != "" && -2147483648 <= n <= 2147483647 then Some(n) else None
  {
    SignRead(sign, digits, rest);
    BlanksSkipped(blanks, sign + (digits + rest));
    ReadNumberMeaning(0, digits, rest);
    assert 0 * Pow(10, |digits|) == 0;
    hide Numeral, ReadNumber, DigitValues, SkipBlanks, IsDigit, IsBlank, AllDigits, AllBlank, Pow;
  }

  lemma SignRead(sign: string, digits: string, rest: string)
    requires sign in {"", "-", "+"} && AllDigits(digits) && (rest == "" || !IsDigit(rest[0]))
    requires sign == digits == "" && rest != "" ==> rest[0] != '-' && rest[0] != '+' && !IsBlank(rest[0])
    ensures var t := sign + (digits + rest);
            && (t == "" || !IsBlank(t[0]))
            && (t != "" && t[0] == '-' <==> sign == "-")
            && (if t != "" && (t[0] == '-' || t[0] == '+') then t[1..] else t) == digits + rest
            && (digits + rest == "" || !IsDigit((digits + rest)[0]) <==> digits == "")
  {
    var s := digits + rest;
    assert sign != "" ==> (sign + s)[1..] == s && (sign + s)[0] == sign[0];
    assert sign == "" ==> sign + s == s;
    assert s != "" ==> s[0] == if digits != "" then digits[0] else rest[0];
  }

  // The relay of the example is at the third pin of its net, an expander in position 1 of the list.
  lemma ExampleExpander()
    ensures var input := ThreeNets();
            var r := input.relayList[0];
            && r.Parallel() && ExpanderAt(r, 2) && r.device[2] == "MAX6957ATL_TQFN-40-MAX6957ATL+"
            && r.identifier[2] == "U1" && ListedAt(input.ioData, "U1", 0)
  {
    var r := ThreeNets().relayList[0];
    assert r.device[0] == "9901-05-20" && r.device[1] == "RESISTOR";
    assert |r.device[0]| == 10 && |r.device[1]| == 8 && |EXPANDER| == 30;
  }

  /** The relay's port can be read: its connection has an expander, and the first one's pin is a number. */
  ghost predicate PortReadable(r: NetlistData)
    requires r.Parallel()
  {
    exists i: nat :: ExpanderAt(r, i) && Stoi(r.connection[i]).Some?
  }

  /** The number of the expander pin that the port table is indexed by; None where the code throws. */
  method ConvertPort(r: NetlistData) returns (connectionNumber: Option<int>)
    requires r.Parallel()
    ensures forall i: nat | ExpanderAt(r, i) :: connectionNumber == Stoi(r.connection[i])
    ensures connectionNumber.Some? <==> PortReadable(r)
  {
    var portIdentifier := "";
    var i := 0;
    while i < |r.device|
      invariant 0 <= i <= |r.device| && portIdentifier == "" && forall i' | 0 <= i' < i :: r.device[i'] != EXPANDER
    {
      if r.device[i] == EXPANDER {
        assert ExpanderAt(r, i);
        portIdentifier := r.connection[i];
        break;
      }
      i := i + 1;
    }
    connectionNumber := Stoi(portIdentifier);
  }

  /** What a row says about its relay. */
  ghost predicate RowOk(input: Input, r: NetlistData, row: RelayData)
    requires input.Ok() && r.Parallel() && r.name != []
  {
    && row.relayName == r.name[0]
    && row.chainNumber in {0, 1}
    && (input.boardType == "Power" ==> row.chainNumber == 0)
    && (input.boardType == "Precision" ==> row.chainNumber == 1)
    && (forall i: nat, j: nat | ExpanderAt(r, i) && ListedAt(input.ioData, r.identifier[i], j) ::
          row.deviceNumber == input.ioData[j].position + if row.chainNumber == 1 then 18 else 21)
    && (if NormallyClosed(input, r) then row.normalState == "RELAY_NC" && row.driveStrength == "CONFIG_OUT"
        else row.normalState == "RELAY_NO" && DrivenBy(input.modelData, r.device, row.driveStrength))
  }

  /** One turn of the loop over the relays; None where the code throws. */
  method ConvertRelay(input: Input, r: NetlistData, chainNumber: int, deviceModifier: int) returns (row: Option<RelayData>)
    requires input.Ok() && r.Parallel() && r.name != []
    requires deviceModifier == (if chainNumber == 1 then 18 else 21) && chainNumber in {0, 1}
    requires input.boardType == "Power" ==> chainNumber == 0
    requires input.boardType == "Precision" ==> chainNumber == 1
    ensures row.Some? <==> PortReadable(r)
    ensures row.Some? ==> RowOk(input, r, row.value)
  {
    hide NormallyClosed, DrivenBy, PortReadable;
    var deviceNumber := ConvertDevice(input, r, deviceModifier);
    var port := ConvertPort(r);
    if port == None {
      return None;
    }
    var normalState := ConvertNormalState(input, r);
    var driveStrength := "CONFIG_OUT";
    if normalState != "RELAY_NC" {
      driveStrength := ConvertDriveStrength(input, r);
    }
    row := Some(RelayData(r.name[0], chainNumber, deviceNumber, normalState, driveStrength));
  }

  class Relay {
    var deviceModifier: int
    var currentRelay: nat
    var relayData: seq<RelayData>
    var relayAmount: nat

    constructor ()
      ensures relayData == []
    {
      deviceModifier, currentRelay, relayData, relayAmount := 0, 0, [], 0;
    }

    /** Appends one row for each relay, in order, up to the first one whose port cannot be read; there stoi throws. */
    method RelayConvert(input: Input) returns (thrown: bool)
      requires input.Ok()
      modifies this
      ensures relayAmount == |input.relayList| && currentRelay <= relayAmount
      ensures old(relayData) <= relayData && |relayData| == |old(relayData)| + currentRelay
      ensures forall i | 0 <= i < currentRelay ::
                PortReadable(input.relayList[i]) && RowOk(input, input.relayList[i], relayData[|old(relayData)| + i])
      ensures if thrown then currentRelay < relayAmount && !PortReadable(input.relayList[currentRelay])
              else currentRelay == relayAmount
    {
      relayAmount := |input.relayList|;
      var chain := ConvertChain(input);
      var chainNumber;
      if chain == 1 {
        chainNumber, deviceModifier := 1, 18;
      } else {
        chainNumber, deviceModifier := 0, 21;
      }
      currentRelay := 0;
      ghost var before := relayData;
      hide RowOk, PortReadable;
      while currentRelay < relayAmount
        invariant 0 <= currentRelay <= relayAmount == |input.relayList|
        invariant deviceModifier == (if chainNumber == 1 then 18 else 21) && chainNumber in {0, 1}
        invariant input.boardType == "Power" ==> chainNumber == 0
        invariant input.boardType == "Precision" ==> chainNumber == 1
        invariant before <= relayData && |relayData| == |before| + currentRelay
        invariant forall i | 0 <= i < currentRelay ::
                    PortReadable(input.relayList[i]) && RowOk(input, input.relayList[i], relayData[|before| + i])
        decreases relayAmount - currentRelay
      {
        var r := input.relayList[currentRelay];
        var row := ConvertRelay(input, r, chainNumber, deviceModifier);
        if row == None {
          return true;
        }
        relayData := relayData + [row.value];
        currentRelay := currentRelay + 1;
      }
      thrown := false;
    }
  }
}
