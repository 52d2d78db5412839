/** The GATT metadata the BLE stack discovers on the device under test, the
    outcome of one test case, and the two iterator idioms every test case is
    built from: `find` (first match in order) and a chain of `ensure!` guards
    (the first guard that does not hold returns early with its error). */
module Gatt {

  /** A 128-bit UUID, as the uuid crate holds it. */
  const UuidLimit: nat := 0x1_0000_0000_0000_0000_0000_0000_0000_0000
  type Uuid = u: nat | u < UuidLimit

  /** The advertised service, 46548881-E7D9-4DE1-BBB7-DB016F1C657D. */
  const Service46548881: Uuid := 0x46548881_E7D9_4DE1_BBB7_DB016F1C657D
  /** The other custom service, 2BC08F60-17EB-431B-BEE7-329518164CD1. */
  const Service2bc08f60: Uuid := 0x2BC08F60_17EB_431B_BEE7_329518164CD1
  /** Characteristic AF679F91-7239-402A-813D-55B5367E4A29 of the advertised service. */
  const CharAf679f91: Uuid := 0xAF679F91_7239_402A_813D_55B5367E4A29
  /** The writable characteristic 22E32A0E-1D8D-4300-B0DF-F996E44E65D3 of the advertised service. */
  const Char22e32a0e: Uuid := 0x22E32A0E_1D8D_4300_B0DF_F996E44E65D3
  /** The notifying characteristic 6482DF69-A273-4F69-BADC-18583BA9A523 of the other service. */
  const Char6482df69: Uuid := 0x6482DF69_A273_4F69_BADC_18583BA9A523
  /** The indicating characteristic B0D2A14A-8205-4E07-9317-DC7D61951473 of the other service. */
  const CharB0d2a14a: Uuid := 0xB0D2A14A_8205_4E07_9317_DC7D61951473

  /** CharPropFlags: the characteristic property byte, one bit per flag. */
  type CharPropFlags = bv8
  const Broadcast: CharPropFlags := 0x01
  const Read: CharPropFlags := 0x02
  const WriteWithoutResponse: CharPropFlags := 0x04
  const Write: CharPropFlags := 0x08
  const Notify: CharPropFlags := 0x10
  const Indicate: CharPropFlags := 0x20
  const AuthenticatedSignedWrites: CharPropFlags := 0x40
  const ExtendedProperties: CharPropFlags := 0x80

  datatype Characteristic = Characteristic(uuid: Uuid, properties: CharPropFlags)

  datatype Service = Service(uuid: Uuid, characteristics: seq<Characteristic>)

  /** An error reported by the BLE stack (discovery or a write). */
  datatype BleError = BleError(description: string)

  datatype Result<T> = Ok(value: T) | Err(error: BleError)

  datatype Option<T> = None | Some(value: T)

  /** What a diagnostic counts or looks for. */
  datatype Noun = ServiceNoun | CharacteristicNoun

  /** The error a test case returns. */
  datatype Failure =
    /** an error of the BLE stack, passed on by `?` */
    | Ble(error: BleError)
    /** "Expected 2 <nouns>, found <count>" */
    | CountMismatch(counted: Noun, count: nat)
    /** "Expected to find <noun> <named>, found <present>": `named` is the UUID the
        message text names, which need not be the UUID that was looked for */
    | NotFound(sought: Noun, named: Uuid, present: seq<Uuid>)
    /** "Expected characteristic properties to be <expected>, found <actual>" */
    | PropertiesMismatch(expected: CharPropFlags, actual: CharPropFlags)

  /** The outcome of running a test case: `Ok(())`, an `Err`, or a panic of an
      `unwrap` on `None`. */
  datatype Outcome = Pass | Fail(failure: Failure) | Panic

  /** `iter().map(f).collect()` */
  function Map<T, U>(s: seq<T>, f: T -> U): (r: seq<U>)
    ensures |r| == |s|
    ensures forall i :: 0 <= i < |s| ==> r[i] == f(s[i])
  {
    if s == [] then [] else [f(s[0])] + Map(s[1..], f)
  }

  /** `services.iter().map(|s| s.uuid).collect()` */
  function ServiceUuids(services: seq<Service>): seq<Uuid> {
    Map(services, (s: Service) => s.uuid)
  }

  /** `characteristics.iter().map(|c| c.uuid).collect()` */
  function CharacteristicUuids(characteristics: seq<Characteristic>): seq<Uuid> {
    Map(characteristics, (c: Characteristic) => c.uuid)
  }

  /** The closure `|s| s.uuid == id` of a service lookup. */
  function ServiceWith(id: Uuid): Service -> bool {
    (s: Service) => s.uuid == id
  }

  /** The closure `|c| c.uuid == id` of a characteristic lookup. */
  function CharacteristicWith(id: Uuid): Characteristic -> bool {
    (c: Characteristic) => c.uuid == id
  }

  /** `i` is the position of the first element of `s` satisfying `p`. */
  ghost predicate IsFirst<T>(s: seq<T>, p: T -> bool, i: int) {
    0 <= i < |s| && p(s[i]) && forall j :: 0 <= j < i ==> !p(s[j])
  }

  /** `iter().find(p)`: the first element in order that satisfies `p`. */
  function Find<T>(s: seq<T>, p: T -> bool): (r: Option<T>)
    ensures r.None? <==> forall i :: 0 <= i < |s| ==> !p(s[i])
    ensures forall i :: IsFirst(s, p, i) ==> r == Some(s[i])
    ensures r.Some? ==> p(r.value) && r.value in s
  {
    if s == [] then None
    else if p(s[0]) then Some(s[0])
    else
      var r := Find(s[1..], p);
      assert forall i :: IsFirst(s, p, i) ==> IsFirst(s[1..], p, i - 1);
      r
  }

  /** The first index of an element satisfying `p` exists whenever one does. */
  lemma {:induction false} FirstExists<T>(s: seq<T>, p: T -> bool, k: int)
    requires 0 <= k < |s| && p(s[k])
    ensures exists i :: IsFirst(s, p, i)
  {
    if !p(s[0]) {
      FirstExists(s[1..], p, k - 1);
      var i :| IsFirst(s[1..], p, i);
      assert IsFirst(s, p, i + 1);
    } else {
      assert IsFirst(s, p, 0);
    }
  }

  /** One `ensure!(holds, failure)`. */
  datatype Guard = Ensure(holds: bool, failure: Failure)

  /** A sequence of `ensure!` statements: the first guard that does not hold
      returns its failure, and no later guard is looked at. */
  function Ensures(gs: seq<Guard>): (r: Outcome)
    ensures r != Panic
    ensures r == Pass <==> forall k :: 0 <= k < |gs| ==> gs[k].holds
    ensures forall k :: 0 <= k < |gs| && !gs[k].holds && (forall j :: 0 <= j < k ==> gs[j].holds)
                        ==> r == Fail(gs[k].failure)
  {
    if gs == [] then Pass
    else if !gs[0].holds then Fail(gs[0].failure)
    else
      var r := Ensures(gs[1..]);
      assert forall k :: 1 <= k < |gs| ==> gs[k] == gs[1..][k - 1];
      r
  }

  /** Running two chains one after the other is running their concatenation. */
  lemma {:induction false} EnsuresAppend(a: seq<Guard>, b: seq<Guard>)
    ensures Ensures(a + b) == if Ensures(a) == Pass then Ensures(b) else Ensures(a)
  {
    if a != [] {
      assert (a + b)[1..] == a[1..] + b;
      EnsuresAppend(a[1..], b);
    } else {
      assert a + b == b;
    }
  }

  /** For two distinct UUIDs, a count guard of two and a membership guard
      for each hold together exactly when the list is a permutation of the
      two: this is how the test cases compare unordered sets. */
  lemma PairOfDistinct(uuids: seq<Uuid>, a: Uuid, b: Uuid)
    requires a != b
    ensures (|uuids| == 2 && a in uuids && b in uuids) <==> multiset(uuids) == multiset{a, b}
  {
    if |uuids| == 2 && a in uuids && b in uuids {
      assert uuids == [uuids[0], uuids[1]];
      if uuids[0] == a {
        assert uuids == [a, b];
      } else {
        assert uuids == [b, a];
      }
    }
    if multiset(uuids) == multiset{a, b} {
      assert |uuids| == |multiset(uuids)| == 2;
      assert a in multiset(uuids) && b in multiset(uuids);
    }
  }
}
