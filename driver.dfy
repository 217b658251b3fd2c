/** Client scenarios, written against the contracts of TrafficLightSubject alone. */
module Driver {
  import opened Observers
  import opened TrafficLight

  /** The top-level script: register vehicle 1 and vendor 2, switch to red,
      unregister the vendor, switch to green. Of each notice in `log` only the
      `message` is printed; the identity and the colour record who reacted to what. */
  method DriverScript() returns (log: seq<Notice>, last: string)
    ensures log == [
      Notice(1, Red, StopVehicle),
      Notice(2, Red, StartSelling),
      Notice(1, Green, StartVehicle)]
    ensures last == Green
  {
    var subject := new TrafficLightSubject();
    var vehicle := Observer(1, Vehicle);
    var vendor := Observer(2, Vendor);
    subject.AddObserver(vehicle);
    assert !HasId([vehicle], vendor.id);
    subject.AddObserver(vendor);
    assert subject.observers == [vehicle, vendor];
    subject.SetTrafficLightColor(Red);
    subject.RemoveObserver(vendor);
    assert subject.observers == [vehicle];
    subject.SetTrafficLightColor(Green);
    log, last := subject.log, subject.TrafficLightColor();
  }

  /** An identity offered twice is registered once, an unrecognised colour takes
      the default branch, and setting the same colour twice notifies twice.
      As above, only the `message` of each notice in `log` is printed. */
  method RepeatedScenario() returns (log: seq<Notice>, last: string)
    ensures log == [Notice(1, "purple", SlowDownVehicle), Notice(1, "purple", SlowDownVehicle)]
    ensures last == "purple"
  {
    var subject := new TrafficLightSubject();
    subject.AddObserver(Observer(1, Vehicle));
    subject.AddObserver(Observer(1, Vendor));
    assert subject.observers == [Observer(1, Vehicle)];
    subject.SetTrafficLightColor("purple");
    subject.SetTrafficLightColor("purple");
    log, last := subject.log, subject.TrafficLightColor();
  }
}
