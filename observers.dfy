/** The traffic colours and the two observer variants of the observer-pattern demo.
    An observer is an immutable value: an integer identity and a closed tag that
    stands for the concrete class implementing the observer protocol. */
module Observers {

  // The named colour strings of TrafficColors. Any other string is still a legal colour.
  const Red: string := "red"
  const Green: string := "green"
  const Yellow: string := "yellow"

  // The messages a vehicle observer reports.
  const StopVehicle: string := "Traveller: stop vehicle"
  const StartVehicle: string := "Traveller: start vehicle"
  const SlowDownVehicle: string := "Traveller: slow down vehicle"

  // The messages a vendor observer reports.
  const StartSelling: string := "Vendor: Start selling products"
  const MoveAside: string := "Vendor: Move aside and wait for red signal"
  const DoNothing: string := "Vendor: Do nothing"

  const VehicleMessages: set<string> := {StopVehicle, StartVehicle, SlowDownVehicle}
  const VendorMessages: set<string> := {StartSelling, MoveAside, DoNothing}

  /** Which concrete observer class an observer is. */
  datatype Kind = Vehicle | Vendor

  /** A registered observer; equality for registration and removal is by `id` only. */
  datatype Observer = Observer(id: int, kind: Kind)

  /** The reaction of a vehicle observer: one message for red, one for green,
      and one shared by yellow and every unrecognised string. */
  function VehicleOnTrafficColorChange(color: string): (m: string)
    ensures m == StopVehicle <==> color == Red
    ensures m == StartVehicle <==> color == Green
    ensures m == SlowDownVehicle <==> color != Red && color != Green
  {
    if color == Red then StopVehicle
    else if color == Green then StartVehicle
    else SlowDownVehicle
  }

  /** The reaction of a vendor observer, with the same three-way split. */
  function VendorOnTrafficColorChange(color: string): (m: string)
    ensures m == StartSelling <==> color == Red
    ensures m == MoveAside <==> color == Green
    ensures m == DoNothing <==> color != Red && color != Green
  {
    if color == Red then StartSelling
    else if color == Green then MoveAside
    else DoNothing
  }

  /** The protocol's reaction, dispatched on the observer's kind. The message
      alone tells which kind of observer produced it. */
  function OnTrafficColorChange(o: Observer, color: string): (m: string)
    ensures m in VehicleMessages <==> o.kind == Vehicle
    ensures m in VendorMessages <==> o.kind == Vendor
  {
    match o.kind
    case Vehicle => VehicleOnTrafficColorChange(color)
    case Vendor => VendorOnTrafficColorChange(color)
  }

  /** Yellow has no case of its own: it and every unrecognised colour take the
      default branch, so they give the same reaction. */
  lemma DefaultBranch(o: Observer, color: string)
    requires color != Red && color != Green
    ensures OnTrafficColorChange(o, color) == OnTrafficColorChange(o, Yellow)
    ensures OnTrafficColorChange(o, color) == (if o.kind == Vehicle then SlowDownVehicle else DoNothing)
  {
  }

  /** Each observer distinguishes exactly three classes of colour: two colours
      give the same reaction exactly when they fall into the same class. */
  lemma ReactionClasses(o: Observer, c1: string, c2: string)
    ensures OnTrafficColorChange(o, c1) == OnTrafficColorChange(o, c2) <==>
      (c1 == Red && c2 == Red) || (c1 == Green && c2 == Green) ||
      (c1 != Red && c1 != Green && c2 != Red && c2 != Green)
  {
  }
}
