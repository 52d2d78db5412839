/** ServiceListTest: the device exposes exactly the two custom services. */
module ServiceList {
  import opened Gatt
  import Diagnostics

  /** The three `ensure!` guards, in source order: the count, then each
      expected service UUID. */
  function Guards(services: seq<Service>): (gs: seq<Guard>)
    ensures |gs| == 3
    ensures (forall k :: 0 <= k < |gs| ==> gs[k].holds) <==>
              multiset(ServiceUuids(services)) == multiset{Service46548881, Service2bc08f60}
  {
    var uuids := ServiceUuids(services);
    var gs :=
      [ Ensure(|services| == 2, CountMismatch(ServiceNoun, |services|)),
        Ensure(Service46548881 in uuids, NotFound(ServiceNoun, Service46548881, uuids)),
        Ensure(Service2bc08f60 in uuids, NotFound(ServiceNoun, Service2bc08f60, uuids)) ];
    assert (forall k :: 0 <= k < |gs| ==> gs[k].holds) <==> gs[0].holds && gs[1].holds && gs[2].holds;
    PairOfDistinct(uuids, Service46548881, Service2bc08f60);
    gs
  }

  /** `ServiceListTest::run`, given what `discover_services` returned and the
      services the peripheral then lists. The test passes exactly when the
      service UUIDs are the two expected ones, each once, in either order. */
  function Run(discovered: Result<seq<Service>>): (r: Outcome)
    ensures discovered.Err? ==> r == Fail(Ble(discovered.error))
    ensures r != Panic
    ensures r == Pass <==>
              discovered.Ok? && multiset(ServiceUuids(discovered.value)) == multiset{Service46548881, Service2bc08f60}
  {
    match discovered
    case Err(e) => Fail(Ble(e))
    case Ok(services) => Ensures(Guards(services))
  }

  /** The test passes iff there are two services and both expected UUIDs are
      among them. */
  lemma PassIff(services: seq<Service>)
    ensures Run(Ok(services)) == Pass <==>
              |services| == 2
              && (exists i :: 0 <= i < |services| && services[i].uuid == Service46548881)
              && (exists i :: 0 <= i < |services| && services[i].uuid == Service2bc08f60)
  {
    var uuids := ServiceUuids(services);
    PairOfDistinct(uuids, Service46548881, Service2bc08f60);
    if Service46548881 in uuids {
      var i :| 0 <= i < |uuids| && uuids[i] == Service46548881;
      assert services[i].uuid == Service46548881;
    }
    if Service2bc08f60 in uuids {
      var i :| 0 <= i < |uuids| && uuids[i] == Service2bc08f60;
      assert services[i].uuid == Service2bc08f60;
    }
  }

  /** Guards run in order and the first that fails is reported: the count
      (whatever the UUIDs are), then 46548881-..., then 2BC08F60-... . */
  lemma FirstFailingGuardReported(services: seq<Service>)
    ensures var uuids := ServiceUuids(services);
            Run(Ok(services)) ==
              if |services| != 2 then Fail(CountMismatch(ServiceNoun, |services|))
              else if Service46548881 !in uuids then Fail(NotFound(ServiceNoun, Service46548881, uuids))
              else if Service2bc08f60 !in uuids then Fail(NotFound(ServiceNoun, Service2bc08f60, uuids))
              else Pass
  {
    var gs := Guards(services);
    if |services| != 2 {
      assert !gs[0].holds;
    } else if Service46548881 !in ServiceUuids(services) {
      assert gs[0].holds && !gs[1].holds;
    } else if Service2bc08f60 !in ServiceUuids(services) {
      assert gs[0].holds && gs[1].holds && !gs[2].holds;
    }
  }

  /** A count other than two is reported with the actual count in its text. */
  lemma CountMessage(services: seq<Service>)
    requires |services| != 2
    ensures Run(Ok(services)) == Fail(CountMismatch(ServiceNoun, |services|))
    ensures Diagnostics.Message(Run(Ok(services)).failure)
            == "Expected 2 services, found " + Diagnostics.Decimal(|services|)
  {
    FirstFailingGuardReported(services);
    var f := CountMismatch(ServiceNoun, |services|);
    assert Run(Ok(services)).failure == f;
    assert Diagnostics.Message(f) == Diagnostics.CountMessage(ServiceNoun, |services|);
  }

  /** A device that exposes only one of the two services fails with
      "Expected 2 services, found 1". */
  lemma OnlyOneServiceScenario(s: Service)
    ensures Diagnostics.Message(Run(Ok([s])).failure) == "Expected 2 services, found 1"
  {
    FirstFailingGuardReported([s]);
  }

  /** The same UUID twice fails at the second membership guard, although the
      count is right. */
  lemma DuplicateServiceFails(a: Service, b: Service)
    requires a.uuid == b.uuid == Service46548881
    ensures Run(Ok([a, b])) == Fail(NotFound(ServiceNoun, Service2bc08f60, [Service46548881, Service46548881]))
  {
    FirstFailingGuardReported([a, b]);
    assert ServiceUuids([a, b]) == [Service46548881, Service46548881];
  }

  /** The verdict, and which guard fails, do not depend on the order in which
      the services are listed; only the UUID list in the text may differ. */
  lemma VerdictOrderIndependent(services: seq<Service>, shuffled: seq<Service>)
    requires multiset(services) == multiset(shuffled)
    ensures Run(Ok(services)) == Pass <==> Run(Ok(shuffled)) == Pass
    ensures GuardIndex(Run(Ok(services))) == GuardIndex(Run(Ok(shuffled)))
  {
    assert |services| == |multiset(services)| == |shuffled|;
    forall id | id in ServiceUuids(services) ensures id in ServiceUuids(shuffled) {
      SameUuidMembership(services, shuffled, id);
    }
    forall id | id in ServiceUuids(shuffled) ensures id in ServiceUuids(services) {
      SameUuidMembership(shuffled, services, id);
    }
    FirstFailingGuardReported(services);
    FirstFailingGuardReported(shuffled);
  }

  /** Which guard an outcome comes from: 0 for the count, 1 and 2 for the
      membership guards, 3 for a pass. */
  function GuardIndex(r: Outcome): nat {
    match r
    case Fail(CountMismatch(_, _)) => 0
    case Fail(NotFound(_, named, _)) => if named == Service46548881 then 1 else 2
    case _ => 3
  }

  lemma SameUuidMembership(services: seq<Service>, shuffled: seq<Service>, id: Uuid)
    requires multiset(services) == multiset(shuffled)
    requires id in ServiceUuids(services)
    ensures id in ServiceUuids(shuffled)
  {
    var i :| 0 <= i < |services| && ServiceUuids(services)[i] == id;
    assert services[i] in multiset(shuffled);
    var j :| 0 <= j < |shuffled| && shuffled[j] == services[i];
    assert ServiceUuids(shuffled)[j] == id;
  }
}
