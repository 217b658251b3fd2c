# Observer pattern: traffic light

This project models a small demonstration of the observer design pattern. A traffic-light
subject holds the current colour, which is an arbitrary string that starts empty. It also holds an
ordered list of registered observers. An observer is either a vehicle or a vendor and has an
integer identity. Registering an observer appends it unless its identity is already present.
Unregistering filters out every observer with the given identity. Assigning the colour stores it
and then notifies every observer, in list order. Each observer reacts with one of three messages:
one for `"red"`, one for `"green"` and one for every other string.

Layout:

- `observers.dfy`, module `Observers`: the colour constants, the message texts, the observer
  value (`Observer(id, kind)` with `kind` one of `Vehicle` and `Vendor`) and the two reactions.
- `traffic_light.dfy`, module `TrafficLight`: the specification functions on observer lists and
  the lemmas about them, plus the class `TrafficLightSubject`.
  - `HasId` models `contains(where:)` as a front-to-back scan.
  - `Unique` is the invariant that identities are distinct.
  - `Added` is the list after registering an observer; `AddedAll` is a sequence of registrations.
  - `Without` is the list after unregistering.
  - `Fanout` is the notices produced by one notification.
- `driver.dfy`, module `Driver`: the top-level script of `ObserverPattern.swift`, plus a second scenario. Both
  are written against the subject's contracts alone.

The printed text is modelled as a log. Each reaction appends a `Notice(observer id, colour,
message)` to the subject's `log` field. The getter of `trafficLightColor` is the function
`TrafficLightColor()`.

## Model

| member | source | states |
|---|---|---|
| `Observers.VehicleOnTrafficColorChange` | ObserverPattern.swift:21-29 | "stop" exactly for `"red"`; "start" exactly for `"green"`; "slow down" exactly for every other string, yellow included |
| `Observers.VendorOnTrafficColorChange` | ObserverPattern.swift:40-48 | "Start selling products" exactly for `"red"`; "Move aside and wait for red signal" exactly for `"green"`; "Do nothing" exactly for every other string |
| `Observers.OnTrafficColorChange` | ObserverPattern.swift:9-50 | dispatch on the observer's kind: the message is a vehicle message exactly when the observer is a vehicle, and a vendor message exactly when it is a vendor |
| `Observers.DefaultBranch` | ObserverPattern.swift:21-48 | yellow and every unrecognised colour give the same default reaction ("slow down" or "Do nothing") |
| `Observers.ReactionClasses` | ObserverPattern.swift:21-48 | two colours give the same reaction exactly when both are red, both are green, or both are neither |
| `TrafficLight.HasId` | ObserverPattern.swift:69 | the scan reports true exactly when some registered observer has the identity |
| `TrafficLight.Added` | ObserverPattern.swift:68-71 | a registered identity leaves the list unchanged; a fresh one is appended at the end with all earlier entries in place; the identity is registered afterwards |
| `TrafficLight.AddedAll` | ObserverPattern.swift:68-71 | over a run of registrations, earlier entries keep their places and at most one entry is appended per offer |
| `TrafficLight.React` | ObserverPattern.swift:74 | one observer's notice names that observer, carries the colour it was given, and its message shows the observer's kind |
| `TrafficLight.Fanout` | ObserverPattern.swift:73-75 | one notification gives exactly as many notices as there are registered observers |
| `TrafficLight.Without` | ObserverPattern.swift:77-79 | removal never lengthens the observer list |
| `TrafficLight.UniqueCountId` | ObserverPattern.swift:66-71 | while the invariant holds, each identity is registered at most once |
| `TrafficLight.AddedUnique` | ObserverPattern.swift:68-71 | registering keeps the identities unique |
| `TrafficLight.AddedIdempotent` | ObserverPattern.swift:69 | offering the same identity again, with either kind, changes nothing |
| `TrafficLight.AddedCountOne` | ObserverPattern.swift:68-71 | after a registration the offered identity appears exactly once |
| `TrafficLight.AddedAllUnique` | ObserverPattern.swift:68-71 | any sequence of registrations keeps the identities unique |
| `TrafficLight.AddedAllIds` | ObserverPattern.swift:68-71 | after a sequence of registrations an identity is registered exactly when it was registered before or was offered |
| `TrafficLight.WithoutMembers` | ObserverPattern.swift:78 | an observer survives removal exactly when it was registered and has a different identity |
| `TrafficLight.WithoutRemovesId` | ObserverPattern.swift:78 | after removal no observer with the removed identity remains |
| `TrafficLight.WithoutConcat` | ObserverPattern.swift:78 | removal commutes with concatenation, so the survivors keep their relative order |
| `TrafficLight.WithoutAbsent` | ObserverPattern.swift:77-79 | removing an identity that is not registered leaves the list unchanged |
| `TrafficLight.WithoutUnique` | ObserverPattern.swift:77-79 | removal keeps the identities unique |
| `TrafficLight.FanoutAt` | ObserverPattern.swift:73-75 | the k-th notice comes from the k-th observer and carries the given colour and that observer's reaction to it |
| `TrafficLight.FanoutConcat` | ObserverPattern.swift:73-75 | notifying a concatenated list means notifying the first part and then the second |
| `TrafficLight.RemovedIsSilent` | ObserverPattern.swift:73-79 | after an identity is removed, no notice of a later notification comes from it |
| `TrafficLight.TrafficLightSubject.constructor` | ObserverPattern.swift:54-66 | a new subject has the empty colour, no observers and an empty log, and satisfies the invariant |
| `TrafficLight.TrafficLightSubject.SetTrafficLightColor` | ObserverPattern.swift:56-63 | afterwards the getter returns the new colour; the observers are unchanged; the log is extended by one notification with the new colour, even when the colour is the same as before |
| `TrafficLight.TrafficLightSubject.NotifyObserver` | ObserverPattern.swift:73-75 | the log is extended by exactly the notices of every registered observer for the current colour, in list order |
| `TrafficLight.TrafficLightSubject.AddObserver` | ObserverPattern.swift:68-71 | the observer list becomes `Added` of the old list; the invariant is kept |
| `TrafficLight.TrafficLightSubject.RemoveObserver` | ObserverPattern.swift:77-79 | the observer list becomes `Without` of the old list for the given identity; the invariant is kept |
| `Driver.DriverScript` | ObserverPattern.swift:86-97 | the script prints "stop vehicle" and "Start selling products" for red, then only "start vehicle" for green; the last colour is green |
| `Driver.RepeatedScenario` | ObserverPattern.swift:68-75 | an identity offered twice is registered once; `"purple"` takes the default branch; setting the same colour twice notifies twice |

## Left out

- `import UIKit` and `debugPrint` (ObserverPattern.swift:1, 24-47): output is modelled as notices appended to the subject's `log` rather than as I/O.
- `deinit` (ObserverPattern.swift:81-83): Dafny has no destructors, and clearing the list at teardown has no observable effect.
- Dynamic dispatch through `ObserverProtocol` over class references (ObserverPattern.swift:9-12): this is replaced by the closed tag `Kind`. Observers are values, so reference identity and aliasing are not modelled, and equality is by `id` only.
- The settable `id` of the protocol (ObserverPattern.swift:10): observers are immutable values. An outside change to a registered observer's identity, which could break uniqueness, is not modelled. The program never makes such a change.
- Swift's 64-bit `Int` for identities: identities are only compared, never computed with, so the unbounded `int` used here behaves the same.
- `TrafficLightColor` (the getter, ObserverPattern.swift:57-59) has no contract of its own. It returns the stored colour, and the contract of `SetTrafficLightColor` is stated through it.
