/** The traffic-light subject: the current colour, the ordered list of registered
    observers, and the notifications they produce. The text each observer prints
    is recorded as a Notice appended to the subject's log. */
module TrafficLight {
  import opened Observers

  /** One reaction: which observer reacted, to which colour, with which message. */
  datatype Notice = Notice(observer: int, color: string, message: string)

  /** Some registered observer has identity `id`: a front-to-back scan of the list. */
  function HasId(obs: seq<Observer>, id: int): (b: bool)
    ensures b <==> exists o :: o in obs && o.id == id
  {
    obs != [] && (obs[0].id == id || HasId(obs[1..], id))
  }

  /** No two registered observers share an identity. */
  predicate Unique(obs: seq<Observer>)
  {
    forall i, j :: 0 <= i < j < |obs| ==> obs[i].id != obs[j].id
  }

  /** How many registered observers have identity `id`. */
  function CountId(obs: seq<Observer>, id: int): (n: nat)
    ensures n <= |obs|
  {
    if obs == [] then 0
    else (if obs[0].id == id then 1 else 0) + CountId(obs[1..], id)
  }

  /** The observer list after `addObserver(o)`: unchanged when the identity is
      already registered, `o` appended at the end with every earlier entry kept
      in place otherwise. Either way the identity is registered afterwards. */
  function Added(obs: seq<Observer>, o: Observer): (r: seq<Observer>)
    ensures HasId(obs, o.id) ==> r == obs
    ensures !HasId(obs, o.id) ==> |r| == |obs| + 1 && r[..|obs|] == obs && r[|obs|] == o
    ensures HasId(r, o.id)
  {
    if HasId(obs, o.id) then obs
    else
      assert (obs + [o])[|obs|] == o;
      obs + [o]
  }

  /** The observer list after offering every observer of `offers`, in order:
      earlier registrations keep their places, and at most one entry is appended
      per offer. */
  function AddedAll(obs: seq<Observer>, offers: seq<Observer>): (r: seq<Observer>)
    ensures obs <= r
    ensures |r| <= |obs| + |offers|
    decreases |offers|
  {
    if offers == [] then obs else AddedAll(Added(obs, offers[0]), offers[1..])
  }

  /** The observer list after `removeObserver`: every observer whose identity
      differs from `id`, in the original order. */
  function Without(obs: seq<Observer>, id: int): (r: seq<Observer>)
    ensures |r| <= |obs|
  {
    if obs == [] then []
    else if obs[0].id == id then Without(obs[1..], id)
    else [obs[0]] + Without(obs[1..], id)
  }

  /** The reaction of one observer to `color`: it names the observer, carries
      the colour it was given, and its message shows the observer's kind. */
  function React(o: Observer, color: string): (n: Notice)
    ensures n.observer == o.id && n.color == color
    ensures n.message in VehicleMessages <==> o.kind == Vehicle
    ensures n.message in VendorMessages <==> o.kind == Vendor
  {
    Notice(o.id, color, OnTrafficColorChange(o, color))
  }

  /** The notices produced by notifying `obs` of `color`, in list order. */
  function Fanout(obs: seq<Observer>, color: string): (r: seq<Notice>)
    ensures |r| == |obs|
  {
    if obs == [] then [] else [React(obs[0], color)] + Fanout(obs[1..], color)
  }

  // ---------------------------------------------------------------------------
  // Lemmas about identities

  lemma {:induction false} CountIdHasId(obs: seq<Observer>, id: int)
    ensures CountId(obs, id) > 0 <==> HasId(obs, id)
  {
    if obs != [] {
      CountIdHasId(obs[1..], id);
      assert obs == [obs[0]] + obs[1..];
      forall o | o in obs && o.id == id && o != obs[0] ensures o in obs[1..] { }
    }
  }

  /** A list with unique identities has at most one entry per identity. */
  lemma {:induction false} UniqueCountId(obs: seq<Observer>, id: int)
    requires Unique(obs)
    ensures CountId(obs, id) <= 1
  {
    if obs != [] {
      UniqueCountId(obs[1..], id);
      if obs[0].id == id {
        UniqueCons(obs[0], obs[1..]);
        assert [obs[0]] + obs[1..] == obs;
        CountIdHasId(obs[1..], id);
      }
    }
  }

  lemma UniqueCons(x: Observer, r: seq<Observer>)
    ensures Unique([x] + r) <==> !HasId(r, x.id) && Unique(r)
  {
    var s := [x] + r;
    if Unique(s) {
      forall i, j | 0 <= i < j < |r| ensures r[i].id != r[j].id {
        assert s[i + 1] == r[i] && s[j + 1] == r[j];
      }
      forall o | o in r ensures o.id != x.id {
        var k :| 0 <= k < |r| && r[k] == o;
        assert s[0] == x && s[k + 1] == o;
      }
    }
    if !HasId(r, x.id) && Unique(r) {
      forall i, j | 0 <= i < j < |s| ensures s[i].id != s[j].id {
        if i == 0 {
          assert s[j] == r[j - 1];
          assert s[j] in r;
        } else {
          assert s[i] == r[i - 1] && s[j] == r[j - 1];
        }
      }
    }
  }

  lemma UniqueSnoc(s: seq<Observer>, o: Observer)
    requires Unique(s) && !HasId(s, o.id)
    ensures Unique(s + [o])
  {
    var t := s + [o];
    forall i, j | 0 <= i < j < |t| ensures t[i].id != t[j].id {
      if j == |s| {
        assert t[i] == s[i] && s[i] in s;
      } else {
        assert t[i] == s[i] && t[j] == s[j];
      }
    }
  }

  lemma HasIdConcat(a: seq<Observer>, b: seq<Observer>, id: int)
    ensures HasId(a + b, id) <==> HasId(a, id) || HasId(b, id)
  {
    if HasId(a + b, id) {
      var o :| o in a + b && o.id == id;
      assert o in a || o in b;
    }
    if HasId(a, id) {
      var o :| o in a && o.id == id;
      assert o in a + b;
    }
    if HasId(b, id) {
      var o :| o in b && o.id == id;
      assert o in a + b;
    }
  }

  // ---------------------------------------------------------------------------
  // Lemmas about addObserver

  /** Adding keeps identities unique. */
  lemma AddedUnique(obs: seq<Observer>, o: Observer)
    requires Unique(obs)
    ensures Unique(Added(obs, o))
  {
    if !HasId(obs, o.id) {
      UniqueSnoc(obs, o);
    }
  }

  /** Offering an identity again has no effect: repeated adds are idempotent. */
  lemma AddedIdempotent(obs: seq<Observer>, o: Observer, o': Observer)
    requires o'.id == o.id
    ensures Added(Added(obs, o), o') == Added(obs, o)
  {
  }

  /** However often an identity is offered, a unique list holds it exactly once. */
  lemma AddedCountOne(obs: seq<Observer>, o: Observer)
    requires Unique(obs)
    ensures CountId(Added(obs, o), o.id) == 1
  {
    AddedUnique(obs, o);
    CountIdHasId(Added(obs, o), o.id);
    UniqueCountId(Added(obs, o), o.id);
  }

  /** Any sequence of adds keeps identities unique, and registers exactly the
      identities already present or offered. */
  lemma {:induction false} AddedAllUnique(obs: seq<Observer>, offers: seq<Observer>)
    requires Unique(obs)
    ensures Unique(AddedAll(obs, offers))
    decreases |offers|
  {
    if offers != [] {
      AddedUnique(obs, offers[0]);
      AddedAllUnique(Added(obs, offers[0]), offers[1..]);
    }
  }

  lemma {:induction false} AddedAllIds(obs: seq<Observer>, offers: seq<Observer>, id: int)
    ensures HasId(AddedAll(obs, offers), id) <==> HasId(obs, id) || HasId(offers, id)
    decreases |offers|
  {
    if offers != [] {
      var o := offers[0];
      AddedAllIds(Added(obs, o), offers[1..], id);
      HasIdConcat(obs, [o], id);
      assert offers == [o] + offers[1..];
      HasIdConcat([o], offers[1..], id);
      assert HasId([o], id) <==> o.id == id by {
        if o.id == id { assert o in [o]; }
      }
    }
  }

  // ---------------------------------------------------------------------------
  // Lemmas about removeObserver

  /** Removal keeps exactly the observers with a different identity. */
  lemma {:induction false} WithoutMembers(obs: seq<Observer>, id: int, o: Observer)
    ensures o in Without(obs, id) <==> o in obs && o.id != id
  {
    if obs != [] {
      WithoutMembers(obs[1..], id, o);
      assert obs == [obs[0]] + obs[1..];
    }
  }

  /** After removal no observer with that identity remains. */
  lemma WithoutRemovesId(obs: seq<Observer>, id: int)
    ensures !HasId(Without(obs, id), id)
  {
    forall o | o in Without(obs, id) ensures o.id != id {
      WithoutMembers(obs, id, o);
    }
  }

  /** Removal is a filter: it commutes with concatenation, so the survivors keep
      their relative order. */
  lemma {:induction false} WithoutConcat(a: seq<Observer>, b: seq<Observer>, id: int)
    ensures Without(a + b, id) == Without(a, id) + Without(b, id)
  {
    if a != [] {
      WithoutConcat(a[1..], b, id);
      assert (a + b)[1..] == a[1..] + b;
      assert (a + b)[0] == a[0];
    } else {
      assert a + b == b;
    }
  }

  /** Removing an identity that is not registered changes nothing. */
  lemma {:induction false} WithoutAbsent(obs: seq<Observer>, id: int)
    requires !HasId(obs, id)
    ensures Without(obs, id) == obs
  {
    if obs != [] {
      assert obs[0] in obs;
      assert !HasId(obs[1..], id) by {
        forall o | o in obs[1..] ensures o.id != id { assert o in obs; }
      }
      WithoutAbsent(obs[1..], id);
      assert obs == [obs[0]] + obs[1..];
    }
  }

  /** Removal keeps identities unique. */
  lemma {:induction false} WithoutUnique(obs: seq<Observer>, id: int)
    requires Unique(obs)
    ensures Unique(Without(obs, id))
  {
    if obs != [] {
      assert obs == [obs[0]] + obs[1..];
      UniqueCons(obs[0], obs[1..]);
      WithoutUnique(obs[1..], id);
      if obs[0].id != id {
        assert !HasId(Without(obs[1..], id), obs[0].id) by {
          forall o | o in Without(obs[1..], id) ensures o.id != obs[0].id {
            WithoutMembers(obs[1..], id, o);
          }
        }
        UniqueCons(obs[0], Without(obs[1..], id));
      }
    }
  }

  // ---------------------------------------------------------------------------
  // Lemmas about notification

  /** Notification gives one notice per observer, in list order, each carrying
      that observer's identity, the given colour and its reaction to it. */
  lemma {:induction false} FanoutAt(obs: seq<Observer>, color: string, k: int)
    requires 0 <= k < |obs|
    ensures Fanout(obs, color)[k] == Notice(obs[k].id, color, OnTrafficColorChange(obs[k], color))
  {
    if k > 0 {
      FanoutAt(obs[1..], color, k - 1);
    }
  }

  /** Notifying a concatenation is notifying each part in turn. */
  lemma {:induction false} FanoutConcat(a: seq<Observer>, b: seq<Observer>, color: string)
    ensures Fanout(a + b, color) == Fanout(a, color) + Fanout(b, color)
  {
    if a != [] {
      FanoutConcat(a[1..], b, color);
      assert (a + b)[1..] == a[1..] + b;
      assert (a + b)[0] == a[0];
    } else {
      assert a + b == b;
    }
  }

  /** Once an identity has been removed, no later notification comes from it. */
  lemma RemovedIsSilent(obs: seq<Observer>, id: int, color: string)
    ensures forall n :: n in Fanout(Without(obs, id), color) ==> n.observer != id
  {
    var r := Without(obs, id);
    WithoutRemovesId(obs, id);
    forall n | n in Fanout(r, color) ensures n.observer != id {
      var k :| 0 <= k < |r| && Fanout(r, color)[k] == n;
      FanoutAt(r, color, k);
      assert r[k] in r;
    }
  }

  // ---------------------------------------------------------------------------

  /** The subject. `log` stands for the output sink the observers print to. */
  class TrafficLightSubject {
    var color: string
    var observers: seq<Observer>
    var log: seq<Notice>

    /** The object invariant: registered identities are unique. */
    ghost predicate Valid()
      reads this
    {
      Unique(observers)
    }

    /** A new subject has the empty colour, no observers and has printed nothing. */
    constructor ()
      ensures Valid()
      ensures color == "" && observers == [] && log == []
    {
      color := "";
      observers := [];
      log := [];
    }

    /** The getter of `trafficLightColor`. */
    function TrafficLightColor(): (c: string)
      reads this
    {
      color
    }

    /** The setter of `trafficLightColor`: stores the new colour first, then
        notifies every observer of it, even when the colour did not change. */
    method SetTrafficLightColor(newValue: string)
      requires Valid()
      modifies this`color, this`log
      ensures Valid()
      ensures TrafficLightColor() == newValue
      ensures observers == old(observers)
      ensures log == old(log) + Fanout(observers, newValue)
    {
      color := newValue;
      NotifyObserver();
    }

    /** Every registered observer reacts to the current colour, in list order. */
    method NotifyObserver()
      modifies this`log
      ensures log == old(log) + Fanout(observers, color)
    {
      var i := 0;
      while i < |observers|
        invariant 0 <= i <= |observers|
        invariant log == old(log) + Fanout(observers[..i], color)
      {
        FanoutConcat(observers[..i], [observers[i]], color);
        assert observers[..i + 1] == observers[..i] + [observers[i]];
        log := log + [React(observers[i], color)];
        i := i + 1;
      }
      assert observers[..i] == observers;
    }

    /** Registers `o` unless an observer with the same identity is registered. */
    method AddObserver(o: Observer)
      requires Valid()
      modifies this`observers
      ensures Valid()
      ensures observers == Added(old(observers), o)
    {
      if !HasId(observers, o.id) {
        UniqueSnoc(observers, o);
        observers := observers + [o];
      }
    }

    /** Unregisters every observer whose identity is that of `o`. */
    method RemoveObserver(o: Observer)
      requires Valid()
      modifies this`observers
      ensures Valid()
      ensures observers == Without(old(observers), o.id)
    {
      WithoutUnique(observers, o.id);
      observers := Without(observers, o.id);
    }
  }
}
