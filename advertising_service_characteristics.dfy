/** AdvertisingServiceCharacteristicsTest: the advertised service has exactly
    the characteristics AF679F91-... and 22E32A0E-... . Their property flags
    are not looked at. */
module AdvertisingServiceCharacteristics {
  import opened Gatt
  import Diagnostics

  /** The three `ensure!` guards over the characteristic UUIDs of the
      inspected service. The two "not found" failures carry the texts the
      source writes, which name the two service UUIDs rather than the
      characteristic looked for. */
  function Guards(uuids: seq<Uuid>): (gs: seq<Guard>)
    ensures |gs| == 3
    ensures (forall k :: 0 <= k < |gs| ==> gs[k].holds) <==> multiset(uuids) == multiset{CharAf679f91, Char22e32a0e}
  {
    var gs :=
      [ Ensure(|uuids| == 2, CountMismatch(CharacteristicNoun, |uuids|)),
        Ensure(CharAf679f91 in uuids, NotFound(CharacteristicNoun, Service46548881, uuids)),
        Ensure(Char22e32a0e in uuids, NotFound(CharacteristicNoun, Service2bc08f60, uuids)) ];
    assert (forall k :: 0 <= k < |gs| ==> gs[k].holds) <==> gs[0].holds && gs[1].holds && gs[2].holds;
    PairOfDistinct(uuids, CharAf679f91, Char22e32a0e);
    gs
  }

  /** The checks made on the service found by the lookup. */
  function CheckService(service: Service): (r: Outcome)
    ensures r != Panic
    ensures r == Pass <==>
              multiset(CharacteristicUuids(service.characteristics)) == multiset{CharAf679f91, Char22e32a0e}
  {
    Ensures(Guards(CharacteristicUuids(service.characteristics)))
  }

  /** `AdvertisingServiceCharacteristicsTest::run`, given what
      `discover_services` returned and the services the peripheral then
      lists. */
  function Run(discovered: Result<seq<Service>>): (r: Outcome)
    ensures discovered.Err? ==> r == Fail(Ble(discovered.error))
    ensures r == Panic <==>
              discovered.Ok? && forall i :: 0 <= i < |discovered.value| ==> discovered.value[i].uuid != Service46548881
    ensures forall i :: discovered.Ok? && IsFirst(discovered.value, ServiceWith(Service46548881), i) ==>
              (r == Pass <==> multiset(CharacteristicUuids(discovered.value[i].characteristics))
                                == multiset{CharAf679f91, Char22e32a0e})
  {
    match discovered
    case Err(e) => Fail(Ble(e))
    case Ok(services) =>
      match Find(services, ServiceWith(Service46548881))
      case None => Panic
      case Some(service) => CheckService(service)
  }

  /** With several services of UUID 46548881-..., only the first in list order
      is inspected: the outcome is that of a list holding just that one. */
  lemma FirstServiceInspected(services: seq<Service>, i: nat)
    requires IsFirst(services, ServiceWith(Service46548881), i)
    ensures Run(Ok(services)) == Run(Ok([services[i]]))
  {
    assert IsFirst([services[i]], ServiceWith(Service46548881), 0);
  }

  /** The guards run in order: the count, then AF679F91-..., then 22E32A0E-... ;
      the first that fails is reported. */
  lemma FirstFailingGuardReported(service: Service)
    ensures var uuids := CharacteristicUuids(service.characteristics);
            CheckService(service) ==
              if |uuids| != 2 then Fail(CountMismatch(CharacteristicNoun, |uuids|))
              else if CharAf679f91 !in uuids then Fail(NotFound(CharacteristicNoun, Service46548881, uuids))
              else if Char22e32a0e !in uuids then Fail(NotFound(CharacteristicNoun, Service2bc08f60, uuids))
              else Pass
  {
    var gs := Guards(CharacteristicUuids(service.characteristics));
    if !gs[0].holds {
    } else if !gs[1].holds {
      assert gs[0].holds;
    } else if !gs[2].holds {
      assert gs[0].holds && gs[1].holds;
    }
  }

  /** Each service with its characteristics' property flags cleared. */
  function WithoutProperties(services: seq<Service>): seq<Service> {
    Map(services, (s: Service) =>
      Service(s.uuid, Map(s.characteristics, (c: Characteristic) => Characteristic(c.uuid, 0))))
  }

  /** Property flags are never consulted: two service lists that differ only
      in the flags of their characteristics give the same outcome. */
  lemma PropertiesIgnored(services: seq<Service>, other: seq<Service>)
    requires WithoutProperties(services) == WithoutProperties(other)
    ensures Run(Ok(services)) == Run(Ok(other))
  {
    SameUuids(services, other);
    var p := ServiceWith(Service46548881);
    if Find(services, p).Some? {
      var k :| 0 <= k < |services| && p(services[k]);
      FirstExists(services, p, k);
      var i :| IsFirst(services, p, i);
      assert IsFirst(other, p, i);
    } else {
      assert Find(other, p).None?;
    }
  }

  /** Lists equal up to flags have the same service UUIDs and, service by
      service, the same characteristic UUIDs. */
  lemma SameUuids(services: seq<Service>, other: seq<Service>)
    requires WithoutProperties(services) == WithoutProperties(other)
    ensures |services| == |other|
    ensures forall i :: 0 <= i < |services| ==>
              services[i].uuid == other[i].uuid
              && CharacteristicUuids(services[i].characteristics) == CharacteristicUuids(other[i].characteristics)
  {
    assert |services| == |other| by {
      assert |WithoutProperties(services)| == |services|;
    }
    forall i | 0 <= i < |services|
      ensures services[i].uuid == other[i].uuid
      ensures CharacteristicUuids(services[i].characteristics) == CharacteristicUuids(other[i].characteristics)
    {
      assert WithoutProperties(services)[i] == WithoutProperties(other)[i];
      var a, b := services[i].characteristics, other[i].characteristics;
      var strip := (c: Characteristic) => Characteristic(c.uuid, 0);
      assert Map(a, strip) == Map(b, strip);
      assert |a| == |Map(a, strip)| == |b|;
      forall k | 0 <= k < |a| ensures a[k].uuid == b[k].uuid {
        assert Map(a, strip)[k] == Map(b, strip)[k];
      }
    }
  }

  /** The two "not found" texts name service UUIDs: when AF679F91-... is
      missing the text names 46548881-..., and when 22E32A0E-... is missing
      it names 2BC08F60-..., neither of them the UUID that was looked for. */
  lemma MisnamedDiagnostics(service: Service)
    requires |service.characteristics| == 2
    ensures var uuids := CharacteristicUuids(service.characteristics);
            && (CharAf679f91 !in uuids ==>
                  CheckService(service) == Fail(NotFound(CharacteristicNoun, Service46548881, uuids)))
            && (CharAf679f91 in uuids && Char22e32a0e !in uuids ==>
                  CheckService(service) == Fail(NotFound(CharacteristicNoun, Service2bc08f60, uuids)))
    ensures Service46548881 != CharAf679f91 && Service2bc08f60 != Char22e32a0e
  {
    FirstFailingGuardReported(service);
  }

  /** The text of the first "not found" failure: right after its prefix
      "Expected to find characteristic " stands a UUID whose first group
      reads 46548881, while the characteristic looked for begins AF679F91. */
  lemma MisnamedText(present: seq<Uuid>)
    ensures var text := Diagnostics.Message(NotFound(CharacteristicNoun, Service46548881, present));
            var k := |Diagnostics.NotFoundText(CharacteristicNoun)|;
            |text| >= k + 8
            && Diagnostics.HexValue(text[k..k + 8]) == 0x46548881
            && CharAf679f91 / 0x1_0000_0000_0000_0000_0000_0000 == 0xAF679F91
  {
    Diagnostics.TopGroup(Service46548881, 0x46548881, 0xE7D9_4DE1_BBB7_DB01_6F1C_657D);
    Diagnostics.TopGroup(CharAf679f91, 0xAF679F91, 0x7239_402A_813D_55B5_367E_4A29);
  }
}
