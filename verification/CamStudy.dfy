/**
  The machining card: the staged and the kept study, the simulation clock, and
  the mesh of remaining stock kept for one motion.
*/
module CamStudy {
  import opened Results

  datatype Tool = Tool(number: nat, shape: nat)

  datatype Operation = Operation(name: string, tool: nat)

  datatype Plan = Plan(operations: seq<Operation>, tools: seq<Tool>)

  /** The body, its recognised setup and where it stands. */
  datatype Subject = Subject(body: nat, setup: nat, placement: nat)

  datatype Simulation = Simulation(ends: seq<real>, total: real, states: nat)

  datatype Program = Program(gcode: string, simulation: Simulation)

  datatype Study = Study(subject: Subject, plan: Plan, program: Program)

  /** Posting and simulating a plan, and meshing the stock; a mesh reads the
      subject and the simulation, never the plan. */
  datatype Shop = Shop(
    finish: (Subject, Plan) -> Option<Program>,
    initialMesh: (Subject, Simulation) -> nat,
    meshAfter: (Subject, Simulation, nat) -> nat)

  function FinishStudy(shop: Shop, subject: Subject, plan: Plan): Option<Study> {
    match shop.finish(subject, plan)
    case None => None
    case Some(program) => Some(Study(subject, plan, program))
  }

  // -- the clock -------------------------------------------------------------

  /** How many motions end before a time. */
  function EndedBefore(ends: seq<real>, seconds: real): (n: nat)
    ensures n <= |ends|
  {
    if ends == [] || ends[0] >= seconds then 0 else 1 + EndedBefore(ends[1..], seconds)
  }

  function ClampUnit(x: real): real {
    if x < 0.0 then 0.0 else if x > 1.0 then 1.0 else x
  }

  function MotionAt(ends: seq<real>, seconds: real): Option<(nat, real)> {
    if ends == [] then None
    else
      var passed := EndedBefore(ends, seconds);
      var index := if passed < |ends| then passed else |ends| - 1;
      var start := if index == 0 then 0.0 else ends[index - 1];
      var duration := ends[index] - start;
      Some((index, if duration <= 0.0 then 1.0 else ClampUnit((seconds - start) / duration)))
  }

  /** The motion whose stock is drawn, and whether it is drawn untouched. */
  function Drawn(simulation: Simulation, seconds: real): (nat, bool) {
    match MotionAt(simulation.ends, seconds)
    case None => (0, true)
    case Some(at) => (at.0, at.0 == 0 && at.1 <= 0.0)
  }

  function MeshFor(shop: Shop, study: Study, index: nat, untouched: bool): nat {
    if untouched then shop.initialMesh(study.subject, study.program.simulation)
    else shop.meshAfter(study.subject, study.program.simulation, index)
  }

  // -- reordering ------------------------------------------------------------

  function ToolNumbered(tools: seq<Tool>, number: nat): Option<Tool> {
    if tools == [] then None
    else if tools[0].number == number then Some(tools[0])
    else ToolNumbered(tools[1..], number)
  }

  /** The tools the operations call for, in order of first use. */
  function ToolsInUse(operations: seq<Operation>, tools: seq<Tool>): seq<Tool> {
    if operations == [] then []
    else
      var last := operations[|operations| - 1];
      var before := ToolsInUse(operations[..|operations| - 1], tools);
      var found := ToolNumbered(tools, last.tool);
      if ToolNumbered(before, last.tool).None? && found.Some? then before + [found.value] else before
  }

  function MoveTarget(count: nat, index: nat, earlier: bool): Option<nat> {
    if index >= count then None
    else if earlier then (if index == 0 then None else Some(index - 1))
    else if index + 1 < count then Some(index + 1)
    else None
  }

  function Swapped(operations: seq<Operation>, i: nat, j: nat): seq<Operation>
    requires i < |operations| && j < |operations|
  {
    operations[i := operations[j]][j := operations[i]]
  }

  /** The plan after one operation has moved one place. */
  function Moved(plan: Plan, index: nat, earlier: bool): Option<Plan> {
    match MoveTarget(|plan.operations|, index, earlier)
    case None => None
    case Some(target) =>
      var operations := Swapped(plan.operations, index, target);
      Some(Plan(operations, ToolsInUse(operations, plan.tools)))
  }

  // -- the card --------------------------------------------------------------

  datatype StockMesh = StockMesh(index: nat, wasStaged: bool, mesh: nat)

  datatype Card = Card(staged: Option<Study>, committed: Option<Study>, time: real, stockMesh: Option<StockMesh>)

  const EMPTY := Card(None, None, 0.0, None)

  function Front(c: Card): Option<Study> {
    if c.staged.Some? then c.staged else c.committed
  }

  function WithFront(c: Card, study: Study): Card {
    if c.staged.Some? then c.(staged := Some(study)) else c.(committed := Some(study))
  }

  function Stage(c: Card, built: Option<Study>): Card {
    match built
    case Some(study) => c.(staged := built, committed := None, time := 0.0, stockMesh := None)
    case None => c.(staged := None, stockMesh := None)
  }

  function Replan(c: Card, built: Option<Study>): Card {
    if Front(c).Some? && built.Some? then WithFront(c, built.value).(time := 0.0, stockMesh := None) else c
  }

  function Rerun(shop: Shop, c: Card): Card {
    if Front(c).None? then c
    else
      match FinishStudy(shop, Front(c).value.subject, Front(c).value.plan)
      case None => c
      case Some(study) => WithFront(c, study).(time := 0.0, stockMesh := None)
  }

  function MoveOperation(shop: Shop, c: Card, index: nat, earlier: bool): Card {
    if Front(c).None? then c
    else
      match Moved(Front(c).value.plan, index, earlier)
      case None => c
      case Some(plan) => Rerun(shop, WithFront(c, Front(c).value.(plan := plan)))
  }

  function Commit(c: Card): Card {
    if c.staged.Some? then c.(staged := None, committed := c.staged) else c
  }

  function Cancel(c: Card): Card {
    c.(staged := None, stockMesh := None, time := 0.0)
  }

  function SetTime(c: Card, seconds: real): Card {
    var total := if Front(c).Some? then Front(c).value.program.simulation.total else 0.0;
    c.(time := if seconds < 0.0 then 0.0 else if seconds > total then total else seconds)
  }

  /** Whether the mesh kept is taken for current. */
  predicate Hit(c: Card)
    requires Front(c).Some?
  {
    && c.stockMesh.Some?
    && c.stockMesh.value.index == Drawn(Front(c).value.program.simulation, c.time).0
    && c.stockMesh.value.wasStaged == c.staged.Some?
  }

  function Overlay(shop: Shop, c: Card): Card {
    if Front(c).None? || Hit(c) then c
    else
      var study := Front(c).value;
      var at := Drawn(study.program.simulation, c.time);
      c.(stockMesh := Some(StockMesh(at.0, c.staged.Some?, MeshFor(shop, study, at.0, at.1))))
  }

  // -- the card in place -----------------------------------------------------

  class CamCard {
    var staged: Option<Study>
    var committed: Option<Study>
    var time: real
    var stockMesh: Option<StockMesh>

    ghost function State(): Card
      reads this
    {
      Card(staged, committed, time, stockMesh)
    }

    constructor ()
      ensures State() == EMPTY
    {
      staged, committed, time, stockMesh := None, None, 0.0, None;
    }

    method StageAutoCam(built: Option<Study>)
      modifies this
      ensures State() == Stage(old(State()), built)
    {
      staged := built;
      stockMesh := None;
      if built.Some? {
        committed := None;
        time := 0.0;
      }
    }

    method ReplanCam(built: Option<Study>)
      modifies this
      ensures State() == Replan(old(State()), built)
    {
      if (staged.Some? || committed.Some?) && built.Some? {
        if staged.Some? {
          staged := built;
        } else {
          committed := built;
        }
        time := 0.0;
        stockMesh := None;
      }
    }

    method RerunCamStudy(shop: Shop)
      modifies this
      ensures State() == Rerun(shop, old(State()))
    {
      var study := if staged.Some? then staged else committed;
      if study.None? {
        return;
      }
      var rerun := FinishStudy(shop, study.value.subject, study.value.plan);
      if rerun.Some? {
        if staged.Some? {
          staged := rerun;
        } else {
          committed := rerun;
        }
        time := 0.0;
        stockMesh := None;
      }
    }

    method MoveCamOperation(shop: Shop, index: nat, earlier: bool)
      modifies this
      ensures State() == MoveOperation(shop, old(State()), index, earlier)
    {
      var study := if staged.Some? then staged else committed;
      if study.None? {
        return;
      }
      var plan := study.value.plan;
      var target := MoveTarget(|plan.operations|, index, earlier);
      if target.None? {
        return;
      }
      var operations := plan.operations[index := plan.operations[target.value]][target.value := plan.operations[index]];
      var tools := CollectTools(operations, plan.tools);
      var swapped := study.value.(plan := Plan(operations, tools));
      if staged.Some? {
        staged := Some(swapped);
      } else {
        committed := Some(swapped);
      }
      RerunCamStudy(shop);
    }

    method CommitCamPlan()
      modifies this
      ensures State() == Commit(old(State()))
    {
      if staged.Some? {
        committed := staged;
        staged := None;
      }
    }

    method CancelCamPlan()
      modifies this
      ensures State() == Cancel(old(State()))
    {
      staged := None;
      stockMesh := None;
      time := 0.0;
    }

    method SetCamTime(seconds: real)
      modifies this
      ensures State() == SetTime(old(State()), seconds)
    {
      var study := if staged.Some? then staged else committed;
      var total := if study.Some? then study.value.program.simulation.total else 0.0;
      time := if seconds < 0.0 then 0.0 else if seconds > total then total else seconds;
    }

    /** The mesh drawn, for the study in front. */
    method CamOverlay(shop: Shop) returns (drawn: Option<nat>)
      modifies this
      ensures State() == Overlay(shop, old(State()))
      ensures drawn.Some? <==> Front(State()).Some?
      ensures drawn.Some? ==> stockMesh.Some? && drawn.value == stockMesh.value.mesh
    {
      var study := if staged.Some? then staged else committed;
      if study.None? {
        return None;
      }
      var at := Drawn(study.value.program.simulation, time);
      var current := stockMesh.Some? && stockMesh.value.index == at.0 && stockMesh.value.wasStaged == staged.Some?;
      if !current {
        var mesh := MeshFor(shop, study.value, at.0, at.1);
        stockMesh := Some(StockMesh(at.0, staged.Some?, mesh));
      }
      drawn := Some(stockMesh.value.mesh);
    }
  }

  method CollectTools(operations: seq<Operation>, tools: seq<Tool>) returns (kept: seq<Tool>)
    ensures kept == ToolsInUse(operations, tools)
  {
    kept := [];
    for i := 0 to |operations|
      invariant kept == ToolsInUse(operations[..i], tools)
    {
      assert operations[..i + 1][..i] == operations[..i];
      var held := ToolNumbered(kept, operations[i].tool);
      var found := ToolNumbered(tools, operations[i].tool);
      if held.None? && found.Some? {
        kept := kept + [found.value];
      }
    }
    assert operations[..|operations|] == operations;
  }
}
