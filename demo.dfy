/** The demonstration script run on the interpreter itself: a fresh world,
    contracts A and B deployed, and four transactions sent in order. */
module VmDemo {
  import opened VmOps
  import opened VmSemantics
  import opened VmWorld
  import opened VmMachine
  import opened DemoScenarios

  /** A fresh world with A and B deployed, and an interpreter over it: both
      deployments succeed, and both contracts start with empty storage. */
  method DeployDemo() returns (world: World, vm: VM)
    ensures fresh(world) && fresh(world.contracts.Values) && vm.world == world
    ensures world.Valid() && world.Codes() == DemoCodes && world.Storages() == Stores0
  {
    world := new World();
    assert world.Codes() == map[] && world.Storages() == map[];
    var deployedA := world.Deploy("A", CodeA);
    var deployedB := world.Deploy("B", CodeB);
    assert deployedA && deployedB;
    vm := new VM(world);
  }

  /** Deploys A and B on a fresh world and runs the four transactions of the
      demonstration.  Every transaction succeeds: A returns its counter
      (7, then 12) for 33 gas, B returns 90, then 140, for 75 gas, each B
      transaction records its one call to A, and the storages end holding
      counter = 14 for A and myvalue = 140 for B. */
  method RunDemo() returns (world: World, results: seq<TxResult>)
    ensures world.Valid() && world.Codes() == DemoCodes && world.Storages() == Stores4
    ensures results == [
      Completed(true, Some(7), 33, TallyA(map[]), []),
      Completed(true, Some(90), 75, TallyB(map[]), [CallEvent("B", "A", 200, 33, 9)]),
      Completed(true, Some(12), 33, TallyA(map[]), []),
      Completed(true, Some(140), 75, TallyB(map[]), [CallEvent("B", "A", 200, 33, 14)])]
  {
    var vm;
    world, vm := DeployDemo();

    var r1 := vm.ExecuteTransaction("A", 500, [7]);
    Transaction1();
    assert r1 == Completed(true, Some(7), 33, TallyA(map[]), []) && world.Storages() == Stores1;
    var r2 := vm.ExecuteTransaction("B", 800, []);
    Transaction2();
    assert r2 == Completed(true, Some(90), 75, TallyB(map[]), [CallEvent("B", "A", 200, 33, 9)]) &&
           world.Storages() == Stores2;
    var r3 := vm.ExecuteTransaction("A", 300, [3]);
    Transaction3();
    assert r3 == Completed(true, Some(12), 33, TallyA(map[]), []) && world.Storages() == Stores3;
    var r4 := vm.ExecuteTransaction("B", 800, []);
    Transaction4();
    assert r4 == Completed(true, Some(140), 75, TallyB(map[]), [CallEvent("B", "A", 200, 33, 14)]) &&
           world.Storages() == Stores4;
    results := [r1, r2, r3, r4];
  }
}
