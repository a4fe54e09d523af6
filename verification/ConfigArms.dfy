/** The configuration arms the Thompson layer chooses between. */
module ConfigArms {

  datatype Schedule = Fast | EcoFuzz | Explore | Coe

  datatype ConfigArm = ConfigArm(index: nat, schedule: Schedule, useMopt: bool, splice: bool, analysis: bool)

  /** The arms of one schedule: both mutation modes, with and without splicing; EcoFuzz never splices. */
  ghost function Block(s: Schedule, base: nat): seq<ConfigArm> {
    if s == EcoFuzz then
      [ConfigArm(base, s, false, false, false), ConfigArm(base + 1, s, true, false, false)]
    else
      [ConfigArm(base, s, false, false, false), ConfigArm(base + 1, s, false, true, false),
       ConfigArm(base + 2, s, true, false, false), ConfigArm(base + 3, s, true, true, false)]
  }

  ghost function Blocks(schedules: seq<Schedule>): seq<ConfigArm> {
    if |schedules| == 0 then []
    else
      var before := Blocks(schedules[..|schedules| - 1]);
      before + Block(schedules[|schedules| - 1], |before|)
  }

  /** A configuration that the arm set is meant to cover. */
  predicate Offered(enableEcofuzz: bool, s: Schedule, useMopt: bool, splice: bool) {
    s == EcoFuzz ==> enableEcofuzz && !splice
  }

  predicate Matches(a: ConfigArm, s: Schedule, useMopt: bool, splice: bool) {
    a.schedule == s && a.useMopt == useMopt && a.splice == splice && !a.analysis
  }

  /** Arms carry their position, and exactly the last one is the analysis arm, which explores. */
  predicate Numbered(arms: seq<ConfigArm>) {
    && |arms| > 1
    && (forall i :: 0 <= i < |arms| ==> arms[i].index == i && (arms[i].analysis <==> i == |arms| - 1))
    && arms[|arms| - 1] == ConfigArm(|arms| - 1, Explore, false, false, true)
  }

  /** Every offered configuration is an arm, and no other. */
  ghost predicate Covers(arms: seq<ConfigArm>, enableEcofuzz: bool) {
    forall s, m, p :: Offered(enableEcofuzz, s, m, p) <==> exists i :: 0 <= i < |arms| && Matches(arms[i], s, m, p)
  }

  /** No configuration has two arms. */
  ghost predicate NoDuplicates(arms: seq<ConfigArm>) {
    forall i, j :: 0 <= i < j < |arms| ==>
      (arms[i].schedule, arms[i].useMopt, arms[i].splice, arms[i].analysis)
      != (arms[j].schedule, arms[j].useMopt, arms[j].splice, arms[j].analysis)
  }

  method AppendSchedule(arms: seq<ConfigArm>, s: Schedule) returns (r: seq<ConfigArm>)
    ensures r == arms + Block(s, |arms|)
  {
    r := arms;
    var options := [false, true];
    ghost var block := Block(s, |arms|);
    for m := 0 to 2
      invariant s == EcoFuzz ==> r == arms + block[..m]
      invariant s != EcoFuzz ==> r == arms + block[..2 * m]
    {
      if s == EcoFuzz {
        r := r + [ConfigArm(|r|, s, options[m], false, false)];
      } else {
        for k := 0 to 2
          invariant r == arms + block[..2 * m + k]
        {
          r := r + [ConfigArm(|r|, s, options[m], options[k], false)];
        }
      }
    }
  }

  method GetConfigArms(enableEcofuzz: bool) returns (arms: seq<ConfigArm>)
    ensures arms == Table(enableEcofuzz) && |arms| == if enableEcofuzz then 15 else 13
    ensures Numbered(arms) && Covers(arms, enableEcofuzz) && NoDuplicates(arms)
  {
    var schedules := [Fast] + (if enableEcofuzz then [EcoFuzz] else []) + [Explore, Coe];
    arms := [];
    for i := 0 to |schedules|
      invariant arms == Blocks(schedules[..i])
    {
      assert schedules[..i + 1][..i] == schedules[..i];
      arms := AppendSchedule(arms, schedules[i]);
    }
    assert schedules[..|schedules|] == schedules;
    arms := arms + [ConfigArm(|arms|, Explore, false, false, true)];
    TableShape(enableEcofuzz, schedules, arms);
  }

  /** The position of an offered configuration. */
  function Position(enableEcofuzz: bool, s: Schedule, useMopt: bool, splice: bool): nat {
    var mode := if useMopt then 2 else 0;
    var inBlock := mode + if splice then 1 else 0;
    match s
    case Fast => inBlock
    case EcoFuzz => 4 + mode / 2
    case Explore => (if enableEcofuzz then 6 else 4) + inBlock
    case Coe => (if enableEcofuzz then 10 else 8) + inBlock
  }

  ghost function Table(enableEcofuzz: bool): seq<ConfigArm> {
    if enableEcofuzz then
      [ConfigArm(0, Fast, false, false, false), ConfigArm(1, Fast, false, true, false),
       ConfigArm(2, Fast, true, false, false), ConfigArm(3, Fast, true, true, false),
       ConfigArm(4, EcoFuzz, false, false, false), ConfigArm(5, EcoFuzz, true, false, false),
       ConfigArm(6, Explore, false, false, false), ConfigArm(7, Explore, false, true, false),
       ConfigArm(8, Explore, true, false, false), ConfigArm(9, Explore, true, true, false),
       ConfigArm(10, Coe, false, false, false), ConfigArm(11, Coe, false, true, false),
       ConfigArm(12, Coe, true, false, false), ConfigArm(13, Coe, true, true, false),
       ConfigArm(14, Explore, false, false, true)]
    else
      [ConfigArm(0, Fast, false, false, false), ConfigArm(1, Fast, false, true, false),
       ConfigArm(2, Fast, true, false, false), ConfigArm(3, Fast, true, true, false),
       ConfigArm(4, Explore, false, false, false), ConfigArm(5, Explore, false, true, false),
       ConfigArm(6, Explore, true, false, false), ConfigArm(7, Explore, true, true, false),
       ConfigArm(8, Coe, false, false, false), ConfigArm(9, Coe, false, true, false),
       ConfigArm(10, Coe, true, false, false), ConfigArm(11, Coe, true, true, false),
       ConfigArm(12, Explore, false, false, true)]
  }

  lemma BlocksStep(schedules: seq<Schedule>, s: Schedule)
    ensures Blocks(schedules + [s]) == Blocks(schedules) + Block(s, |Blocks(schedules)|)
  {
    assert (schedules + [s])[..|schedules|] == schedules;
  }

  lemma {:induction false} TableShape(enableEcofuzz: bool, schedules: seq<Schedule>, arms: seq<ConfigArm>)
    requires schedules == [Fast] + (if enableEcofuzz then [EcoFuzz] else []) + [Explore, Coe]
    requires var plain := Blocks(schedules); arms == plain + [ConfigArm(|plain|, Explore, false, false, true)]
    ensures arms == Table(enableEcofuzz) && |arms| == if enableEcofuzz then 15 else 13
    ensures Numbered(arms) && Covers(arms, enableEcofuzz) && NoDuplicates(arms)
  {
    hide Numbered, Covers, NoDuplicates;
    if enableEcofuzz {
      FourBlocks(schedules);
    } else {
      ThreeBlocks(schedules);
    }
    TableCovers(enableEcofuzz);
    TableDistinct(enableEcofuzz);
  }

  lemma {:induction false} FourBlocks(schedules: seq<Schedule>)
    requires schedules == [Fast] + [EcoFuzz] + [Explore, Coe]
    ensures Blocks(schedules) + [ConfigArm(|Blocks(schedules)|, Explore, false, false, true)] == Table(true)
  {
    BlocksStep([], Fast);
    BlocksStep([Fast], EcoFuzz);
    BlocksStep([Fast, EcoFuzz], Explore);
    BlocksStep([Fast, EcoFuzz, Explore], Coe);
    assert schedules == [Fast, EcoFuzz, Explore] + [Coe];
  }

  lemma {:induction false} ThreeBlocks(schedules: seq<Schedule>)
    requires schedules == [Fast] + [] + [Explore, Coe]
    ensures Blocks(schedules) + [ConfigArm(|Blocks(schedules)|, Explore, false, false, true)] == Table(false)
  {
    BlocksStep([], Fast);
    BlocksStep([Fast], Explore);
    BlocksStep([Fast, Explore], Coe);
    assert schedules == [Fast, Explore] + [Coe];
  }

  lemma TableCovers(enableEcofuzz: bool)
    ensures Covers(Table(enableEcofuzz), enableEcofuzz)
  {
    var arms := Table(enableEcofuzz);
    forall s, m, p | Offered(enableEcofuzz, s, m, p)
      ensures exists i :: 0 <= i < |arms| && Matches(arms[i], s, m, p)
    {
      assert Matches(arms[Position(enableEcofuzz, s, m, p)], s, m, p);
    }
  }

  /** An arm's position tells its configuration. */
  lemma TableDistinct(enableEcofuzz: bool)
    ensures Numbered(Table(enableEcofuzz)) && NoDuplicates(Table(enableEcofuzz))
  {
    var arms := Table(enableEcofuzz);
    forall i: nat | i < |arms|
      ensures arms[i].index == i && (arms[i].analysis <==> i == |arms| - 1)
      ensures arms[i].analysis || Position(enableEcofuzz, arms[i].schedule, arms[i].useMopt, arms[i].splice) == i
    {
      ArmAt(enableEcofuzz, i);
    }
    hide Table, Position;
  }

  lemma ArmAt(enableEcofuzz: bool, i: nat)
    requires i < |Table(enableEcofuzz)|
    ensures
      var a := Table(enableEcofuzz)[i];
      && a.index == i && (a.analysis <==> i == |Table(enableEcofuzz)| - 1)
      && (a.analysis || Position(enableEcofuzz, a.schedule, a.useMopt, a.splice) == i)
  {
  }
}
