/** OtherServiceCharacteristicsTest: the other service has exactly the
    notifying characteristic 6482DF69-... with properties READ | NOTIFY and
    the indicating characteristic B0D2A14A-... with READ | INDICATE. */
module OtherServiceCharacteristics {
  import opened Gatt

  const NotifyingProperties: CharPropFlags := Read | Notify
  const IndicatingProperties: CharPropFlags := Read | Indicate

  /** The characteristics the test accepts, in either order. */
  const Expected: multiset<Characteristic> :=
    multiset{Characteristic(Char6482df69, NotifyingProperties), Characteristic(CharB0d2a14a, IndicatingProperties)}

  /** The count guard and the two membership guards, in source order. */
  function MembershipGuards(uuids: seq<Uuid>): (gs: seq<Guard>)
    ensures |gs| == 3
    ensures (forall k :: 0 <= k < |gs| ==> gs[k].holds) <==> multiset(uuids) == multiset{Char6482df69, CharB0d2a14a}
  {
    var gs :=
      [ Ensure(|uuids| == 2, CountMismatch(CharacteristicNoun, |uuids|)),
        Ensure(Char6482df69 in uuids, NotFound(CharacteristicNoun, Char6482df69, uuids)),
        Ensure(CharB0d2a14a in uuids, NotFound(CharacteristicNoun, CharB0d2a14a, uuids)) ];
    assert (forall k :: 0 <= k < |gs| ==> gs[k].holds) <==> gs[0].holds && gs[1].holds && gs[2].holds;
    PairOfDistinct(uuids, Char6482df69, CharB0d2a14a);
    gs
  }

  /** `characteristics.iter().find(|c| c.uuid == id).unwrap()` followed by
      `ensure!(c.properties == expected, ...)`. */
  function PropertyCheck(characteristics: seq<Characteristic>, id: Uuid, expected: CharPropFlags): (r: Outcome)
    ensures r == Panic <==> forall i :: 0 <= i < |characteristics| ==> characteristics[i].uuid != id
    ensures forall i :: IsFirst(characteristics, CharacteristicWith(id), i) ==>
              if characteristics[i].properties == expected then r == Pass
              else r == Fail(PropertiesMismatch(expected, characteristics[i].properties))
  {
    match Find(characteristics, CharacteristicWith(id))
    case None => Panic
    case Some(c) => Ensures([Ensure(c.properties == expected, PropertiesMismatch(expected, c.properties))])
  }

  /** The checks made on the characteristics of the service found by the
      lookup: the three guards, then the flags of each characteristic. */
  function CheckCharacteristics(characteristics: seq<Characteristic>): (r: Outcome)
    ensures r != Panic
  {
    LookupsSucceed(characteristics);
    match Ensures(MembershipGuards(CharacteristicUuids(characteristics)))
    case Pass =>
      (match PropertyCheck(characteristics, Char6482df69, NotifyingProperties)
       case Pass => PropertyCheck(characteristics, CharB0d2a14a, IndicatingProperties)
       case failed => failed)
    case failed => failed
  }

  /** `OtherServiceCharacteristicsTest::run`, given what `discover_services`
      returned and the services the peripheral then lists. */
  function Run(discovered: Result<seq<Service>>): (r: Outcome)
    ensures discovered.Err? ==> r == Fail(Ble(discovered.error))
    ensures r == Panic <==>
              discovered.Ok? && forall i :: 0 <= i < |discovered.value| ==> discovered.value[i].uuid != Service2bc08f60
    ensures forall i :: discovered.Ok? && IsFirst(discovered.value, ServiceWith(Service2bc08f60), i) ==>
              (r == Pass <==> multiset(discovered.value[i].characteristics) == Expected)
  {
    match discovered
    case Err(e) => Fail(Ble(e))
    case Ok(services) =>
      match Find(services, ServiceWith(Service2bc08f60))
      case None => Panic
      case Some(service) =>
        PassIffExact(service.characteristics);
        CheckCharacteristics(service.characteristics)
  }

  /** Once the count and both membership guards pass, the two later
      `find(...).unwrap()` lookups find their characteristic. */
  lemma LookupsSucceed(characteristics: seq<Characteristic>)
    ensures Ensures(MembershipGuards(CharacteristicUuids(characteristics))) == Pass ==>
              Find(characteristics, CharacteristicWith(Char6482df69)).Some?
              && Find(characteristics, CharacteristicWith(CharB0d2a14a)).Some?
  {
    var uuids := CharacteristicUuids(characteristics);
    var gs := MembershipGuards(uuids);
    if Ensures(gs) == Pass {
      assert gs[1].holds && gs[2].holds;
      var i :| 0 <= i < |uuids| && uuids[i] == Char6482df69;
      var j :| 0 <= j < |uuids| && uuids[j] == CharB0d2a14a;
      assert CharacteristicWith(Char6482df69)(characteristics[i]);
      assert CharacteristicWith(CharB0d2a14a)(characteristics[j]);
    }
  }

  /** The checks never panic, and they pass exactly when the list is a
      permutation of the two expected characteristics, flags included. */
  lemma PassIffExact(cs: seq<Characteristic>)
    ensures CheckCharacteristics(cs) != Panic
    ensures CheckCharacteristics(cs) == Pass <==> multiset(cs) == Expected
  {
    if |cs| == 2 && cs[0].uuid == Char6482df69 && cs[1].uuid == CharB0d2a14a {
      PassInOrder(cs, 0, 1);
    } else if |cs| == 2 && cs[0].uuid == CharB0d2a14a && cs[1].uuid == Char6482df69 {
      PassInOrder(cs, 1, 0);
    } else {
      Misstructured(cs);
    }
  }

  /** Two characteristics with the two expected UUIDs, the notifying one at
      `n` and the indicating one at `i`: the guards pass and the flags
      decide. */
  lemma PassInOrder(cs: seq<Characteristic>, n: nat, i: nat)
    requires |cs| == 2 && n < 2 && i == 1 - n
    requires cs[n].uuid == Char6482df69 && cs[i].uuid == CharB0d2a14a
    ensures CheckCharacteristics(cs) != Panic
    ensures CheckCharacteristics(cs) == Pass <==> multiset(cs) == Expected
  {
    var notifying := Characteristic(Char6482df69, NotifyingProperties);
    var indicating := Characteristic(CharB0d2a14a, IndicatingProperties);
    var uuids := CharacteristicUuids(cs);
    assert uuids[n] == Char6482df69 && uuids[i] == CharB0d2a14a;
    assert Ensures(MembershipGuards(uuids)) == Pass;
    assert IsFirst(cs, CharacteristicWith(Char6482df69), n);
    assert IsFirst(cs, CharacteristicWith(CharB0d2a14a), i);
    PairOf(cs, n, notifying, indicating);
  }

  /** Any other list fails one of the three guards, and is no permutation of
      the expected pair. */
  lemma Misstructured(cs: seq<Characteristic>)
    requires !(|cs| == 2 && cs[0].uuid == Char6482df69 && cs[1].uuid == CharB0d2a14a)
    requires !(|cs| == 2 && cs[0].uuid == CharB0d2a14a && cs[1].uuid == Char6482df69)
    ensures Ensures(MembershipGuards(CharacteristicUuids(cs))).Fail?
    ensures CheckCharacteristics(cs) == Ensures(MembershipGuards(CharacteristicUuids(cs)))
    ensures multiset(cs) != Expected
  {
    var uuids := CharacteristicUuids(cs);
    var gs := MembershipGuards(uuids);
    assert |multiset(cs)| == |cs| && |Expected| == 2;
    if |cs| == 2 {
      assert uuids == [cs[0].uuid, cs[1].uuid];
      assert !gs[1].holds || !gs[2].holds;
    } else {
      assert !gs[0].holds;
    }
  }

  /** Two characteristics, one with the UUID of `x` at `n` and one with the
      UUID of `y` at the other place, are a permutation of `x` and `y`
      exactly when they equal them. */
  lemma PairOf(cs: seq<Characteristic>, n: nat, x: Characteristic, y: Characteristic)
    requires |cs| == 2 && n < 2 && x.uuid != y.uuid
    requires cs[n].uuid == x.uuid && cs[1 - n].uuid == y.uuid
    ensures multiset(cs) == multiset{x, y} <==> cs[n] == x && cs[1 - n] == y
  {
    assert cs == [cs[0], cs[1]];
    if multiset(cs) == multiset{x, y} {
      assert cs[0] in multiset{x, y} && cs[1] in multiset{x, y};
    }
  }

  /** The properties of the first characteristic with UUID `id`, as the
      lookup finds it (no flags when there is none). */
  function PropertiesOf(characteristics: seq<Characteristic>, id: Uuid): CharPropFlags {
    match Find(characteristics, CharacteristicWith(id))
    case None => 0
    case Some(c) => c.properties
  }

  /** All five guards as one chain, in source order: count, membership of
      6482DF69-..., membership of B0D2A14A-..., the flags of the notifying
      characteristic, the flags of the indicating one. */
  function AllGuards(characteristics: seq<Characteristic>): seq<Guard> {
    var notifying := PropertiesOf(characteristics, Char6482df69);
    var indicating := PropertiesOf(characteristics, CharB0d2a14a);
    MembershipGuards(CharacteristicUuids(characteristics))
    + [ Ensure(notifying == NotifyingProperties, PropertiesMismatch(NotifyingProperties, notifying)),
        Ensure(indicating == IndicatingProperties, PropertiesMismatch(IndicatingProperties, indicating)) ]
  }

  /** The checks are the five-guard chain: the test passes iff all five hold,
      and otherwise reports the first that fails. */
  lemma FiveGuardsInOrder(characteristics: seq<Characteristic>)
    ensures CheckCharacteristics(characteristics) == Ensures(AllGuards(characteristics))
  {
    var cs := characteristics;
    var membership := MembershipGuards(CharacteristicUuids(cs));
    var notifying := PropertiesOf(cs, Char6482df69);
    var indicating := PropertiesOf(cs, CharB0d2a14a);
    var flagGuards := [ Ensure(notifying == NotifyingProperties, PropertiesMismatch(NotifyingProperties, notifying)),
                        Ensure(indicating == IndicatingProperties, PropertiesMismatch(IndicatingProperties, indicating)) ];
    EnsuresAppend(membership, flagGuards);
    if Ensures(membership) == Pass {
      LookupsSucceed(cs);
      assert flagGuards[1..] == [flagGuards[1]];
    }
  }

  /** Flags are compared for equality, not inclusion: once the structure is
      right, any other flag set on the notifying characteristic fails, a
      strict superset of READ | NOTIFY included. */
  lemma ExactNotifyingFlags(characteristics: seq<Characteristic>)
    requires Ensures(MembershipGuards(CharacteristicUuids(characteristics))) == Pass
    requires PropertiesOf(characteristics, Char6482df69) != NotifyingProperties
    ensures CheckCharacteristics(characteristics)
            == Fail(PropertiesMismatch(NotifyingProperties, PropertiesOf(characteristics, Char6482df69)))
  {
    FiveGuardsInOrder(characteristics);
    var gs := AllGuards(characteristics);
    assert gs[0].holds && gs[1].holds && gs[2].holds && !gs[3].holds;
  }

  /** Likewise the indicating characteristic must carry exactly READ | INDICATE. */
  lemma ExactIndicatingFlags(characteristics: seq<Characteristic>)
    requires Ensures(MembershipGuards(CharacteristicUuids(characteristics))) == Pass
    requires PropertiesOf(characteristics, Char6482df69) == NotifyingProperties
    requires PropertiesOf(characteristics, CharB0d2a14a) != IndicatingProperties
    ensures CheckCharacteristics(characteristics)
            == Fail(PropertiesMismatch(IndicatingProperties, PropertiesOf(characteristics, CharB0d2a14a)))
  {
    FiveGuardsInOrder(characteristics);
    var gs := AllGuards(characteristics);
    assert gs[0].holds && gs[1].holds && gs[2].holds && gs[3].holds && !gs[4].holds;
  }

  /** READ | NOTIFY | WRITE on the notifying characteristic fails the test. */
  lemma SupersetFails()
    ensures var cs := [Characteristic(Char6482df69, Read | Notify | Write),
                       Characteristic(CharB0d2a14a, Read | Indicate)];
            CheckCharacteristics(cs) == Fail(PropertiesMismatch(Read | Notify, Read | Notify | Write))
  {
    var cs := [Characteristic(Char6482df69, Read | Notify | Write), Characteristic(CharB0d2a14a, Read | Indicate)];
    assert CharacteristicUuids(cs) == [Char6482df69, CharB0d2a14a];
    assert IsFirst(cs, CharacteristicWith(Char6482df69), 0);
    ExactNotifyingFlags(cs);
  }

  /** With several services of UUID 2BC08F60-..., only the first in list
      order is inspected. */
  lemma FirstServiceInspected(services: seq<Service>, i: nat)
    requires IsFirst(services, ServiceWith(Service2bc08f60), i)
    ensures Run(Ok(services)) == Run(Ok([services[i]]))
  {
    assert IsFirst([services[i]], ServiceWith(Service2bc08f60), 0);
  }
}
