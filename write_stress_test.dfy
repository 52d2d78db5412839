/** WriteWithoutResponseStressTest: two phases of 1000 writes without
    response to the writable characteristic, one byte each and then eight
    bytes each; the first write the stack rejects ends the test with that
    error. The timing and throughput figures are not modelled. */
module WriteStressTest {
  import opened Gatt

  datatype WriteType = WithResponse | WithoutResponse

  /** A byte of a write's payload. */
  newtype U8 = b: int | 0 <= b < 256

  /** One call of `peripheral.write(characteristic, &data, kind)`. */
  datatype WriteRequest = WriteRequest(characteristic: Characteristic, data: seq<U8>, kind: WriteType)

  /** The connected peripheral, as far as the stress test uses it: the
      characteristics it lists, how the BLE stack answers a write (given every
      write issued before it), and the log of the writes issued so far. */
  class Peripheral {
    const characteristics: seq<Characteristic>
    const respond: (seq<WriteRequest>, WriteRequest) -> Option<BleError>
    var writes: seq<WriteRequest>

    constructor (characteristics: seq<Characteristic>, respond: (seq<WriteRequest>, WriteRequest) -> Option<BleError>)
      ensures this.characteristics == characteristics && this.respond == respond
      ensures writes == []
    {
      this.characteristics := characteristics;
      this.respond := respond;
      writes := [];
    }

    /** Issue one write; `Some(e)` is the error the stack returns for it. */
    method Write(characteristic: Characteristic, data: seq<U8>, kind: WriteType) returns (error: Option<BleError>)
      modifies this
      ensures writes == old(writes) + [WriteRequest(characteristic, data, kind)]
      ensures error == respond(old(writes), WriteRequest(characteristic, data, kind))
    {
      error := respond(writes, WriteRequest(characteristic, data, kind));
      writes := writes + [WriteRequest(characteristic, data, kind)];
    }
  }

  /** `num_samples`, in each phase. */
  const NumSamples: nat := 1000

  /** `i as u8`: the loop index truncated to its low eight bits. */
  function AsU8(i: nat): (b: U8)
    ensures b as int == i % 256
  {
    (i % 256) as U8
  }

  /** `vec![b; n]` */
  function Repeat(b: U8, n: nat): (s: seq<U8>)
    ensures |s| == n && forall j :: 0 <= j < n ==> s[j] == b
  {
    seq(n, _ => b)
  }

  /** The writes the test issues when none fails: phase 1 sends `[i as u8]`
      for each i, then phase 2 sends `[i as u8; 8]` for each i. */
  function Plan(target: Characteristic): (p: seq<WriteRequest>)
    ensures |p| == 2 * NumSamples
  {
    seq(2 * NumSamples, (k: int) requires 0 <= k =>
      if k < NumSamples then WriteRequest(target, [AsU8(k)], WithoutResponse)
      else WriteRequest(target, Repeat(AsU8(k - NumSamples), 8), WithoutResponse))
  }

  /** The position in `plan` of the first write, from `from` on, that the
      stack rejects, when each write follows `base` and the writes of `plan`
      before it. */
  function FirstRejected(respond: (seq<WriteRequest>, WriteRequest) -> Option<BleError>,
                         base: seq<WriteRequest>, plan: seq<WriteRequest>, from: nat): (r: Option<nat>)
    requires from <= |plan|
    ensures r.None? <==> forall k :: from <= k < |plan| ==> respond(base + plan[..k], plan[k]).None?
    ensures r.Some? ==> from <= r.value < |plan|
                        && respond(base + plan[..r.value], plan[r.value]).Some?
                        && forall k :: from <= k < r.value ==> respond(base + plan[..k], plan[k]).None?
    decreases |plan| - from
  {
    if from == |plan| then None
    else if respond(base + plan[..from], plan[from]).Some? then Some(from)
    else FirstRejected(respond, base, plan, from + 1)
  }

  /** Every write of `plan` before position `n` is accepted. */
  ghost predicate AcceptedBefore(respond: (seq<WriteRequest>, WriteRequest) -> Option<BleError>,
                                 base: seq<WriteRequest>, plan: seq<WriteRequest>, n: nat)
    requires n <= |plan|
  {
    forall k :: 0 <= k < n ==> respond(base + plan[..k], plan[k]).None?
  }

  /** How many writes of `plan` are issued: up to and including the first
      rejected one, or all of them. */
  function Attempts(respond: (seq<WriteRequest>, WriteRequest) -> Option<BleError>,
                    base: seq<WriteRequest>, plan: seq<WriteRequest>): nat
  {
    match FirstRejected(respond, base, plan, 0)
    case None => |plan|
    case Some(k) => k + 1
  }

  /** The result of issuing `plan`: the error of the first rejected write, or a pass. */
  function Verdict(respond: (seq<WriteRequest>, WriteRequest) -> Option<BleError>,
                   base: seq<WriteRequest>, plan: seq<WriteRequest>): Outcome
  {
    match FirstRejected(respond, base, plan, 0)
    case None => Pass
    case Some(k) => Fail(Ble(respond(base + plan[..k], plan[k]).value))
  }

  /** `characteristics.iter().find(|c| c.uuid == 22E32A0E-...)` */
  function Writable(characteristics: seq<Characteristic>): (r: Option<Characteristic>)
    ensures r.None? <==> forall i :: 0 <= i < |characteristics| ==> characteristics[i].uuid != Char22e32a0e
    ensures r.Some? ==> r.value.uuid == Char22e32a0e && r.value in characteristics
    ensures forall i :: IsFirst(characteristics, CharacteristicWith(Char22e32a0e), i) ==> r == Some(characteristics[i])
  {
    Find(characteristics, CharacteristicWith(Char22e32a0e))
  }

  /** `WriteWithoutResponseStressTest::run`. A missing writable
      characteristic panics before any write; otherwise the planned writes
      are issued in order up to and including the first one rejected, whose
      error is the result; with no rejection all 2000 are issued and the test
      passes. */
  method Run(p: Peripheral) returns (r: Outcome)
    modifies p
    ensures Writable(p.characteristics).None? ==> r == Panic && p.writes == old(p.writes)
    ensures Writable(p.characteristics).Some? ==>
              var plan := Plan(Writable(p.characteristics).value);
              && r == Verdict(p.respond, old(p.writes), plan)
              && p.writes == old(p.writes) + plan[..Attempts(p.respond, old(p.writes), plan)]
  {
    var found := Writable(p.characteristics);
    if found.None? {
      return Panic;
    }
    var target := found.value;
    ghost var base := p.writes;
    ghost var plan := Plan(target);

    var i := 0;
    while i < NumSamples
      invariant 0 <= i <= NumSamples
      invariant p.writes == base + plan[..i]
      invariant AcceptedBefore(p.respond, base, plan, i)
    {
      var data := [AsU8(i)];
      assert plan[i] == WriteRequest(target, data, WithoutResponse);
      var error := p.Write(target, data, WithoutResponse);
      Step(p.respond, base, plan, i, p.writes, error);
      if error.Some? {
        return Fail(Ble(error.value));
      }
      i := i + 1;
    }

    i := 0;
    while i < NumSamples
      invariant 0 <= i <= NumSamples
      invariant p.writes == base + plan[..NumSamples + i]
      invariant AcceptedBefore(p.respond, base, plan, NumSamples + i)
    {
      var data := Repeat(AsU8(i), 8);
      assert plan[NumSamples + i] == WriteRequest(target, data, WithoutResponse);
      var error := p.Write(target, data, WithoutResponse);
      Step(p.respond, base, plan, NumSamples + i, p.writes, error);
      if error.Some? {
        return Fail(Ble(error.value));
      }
      i := i + 1;
    }
    NoneRejected(p.respond, base, plan);
    r := Pass;
  }

  /** The planned write at `k`, issued after the `k` before it were accepted:
      if rejected, it is the first rejection, its error is the verdict and
      `k + 1` writes were issued; if accepted, the accepted prefix grows. */
  lemma Step(respond: (seq<WriteRequest>, WriteRequest) -> Option<BleError>,
             base: seq<WriteRequest>, plan: seq<WriteRequest>, k: nat,
             writes: seq<WriteRequest>, error: Option<BleError>)
    requires k < |plan|
    requires AcceptedBefore(respond, base, plan, k)
    requires writes == base + plan[..k] + [plan[k]]
    requires error == respond(base + plan[..k], plan[k])
    ensures writes == base + plan[..k + 1]
    ensures error.Some? ==> Verdict(respond, base, plan) == Fail(Ble(error.value))
                            && writes == base + plan[..Attempts(respond, base, plan)]
    ensures error.None? ==> AcceptedBefore(respond, base, plan, k + 1)
  {
    assert plan[..k + 1] == plan[..k] + [plan[k]];
    if error.Some? {
      assert FirstRejected(respond, base, plan, 0) == Some(k);
    }
  }

  /** With every planned write accepted, the verdict is a pass and all were issued. */
  lemma NoneRejected(respond: (seq<WriteRequest>, WriteRequest) -> Option<BleError>,
                     base: seq<WriteRequest>, plan: seq<WriteRequest>)
    requires AcceptedBefore(respond, base, plan, |plan|)
    ensures Verdict(respond, base, plan) == Pass
    ensures plan[..Attempts(respond, base, plan)] == plan
  {
  }

  /** How the run ends, whatever the stack answers: it passes iff every
      planned write is accepted, and then all of them were issued; otherwise
      the writes issued are those up to the first rejected one, the last of
      them is that rejected write, and no write after it is issued. */
  lemma VerdictAndAttempts(respond: (seq<WriteRequest>, WriteRequest) -> Option<BleError>,
                                              base: seq<WriteRequest>, plan: seq<WriteRequest>)
    ensures Verdict(respond, base, plan) != Panic
    ensures Verdict(respond, base, plan) == Pass <==> AcceptedBefore(respond, base, plan, |plan|)
    ensures Verdict(respond, base, plan) == Pass ==> Attempts(respond, base, plan) == |plan|
    ensures Verdict(respond, base, plan).Fail? ==>
              var n := Attempts(respond, base, plan);
              && 1 <= n <= |plan|
              && AcceptedBefore(respond, base, plan, n - 1)
              && Verdict(respond, base, plan) == Fail(Ble(respond(base + plan[..n - 1], plan[n - 1]).value))
  {
    match FirstRejected(respond, base, plan, 0)
    case None =>
    case Some(k) =>
  }

  /** Every planned write goes to the same characteristic, without response. */
  lemma SameTargetWithoutResponse(target: Characteristic)
    ensures forall k :: 0 <= k < |Plan(target)| ==>
              Plan(target)[k].characteristic == target && Plan(target)[k].kind == WithoutResponse
  {
  }

  /** The payloads in order: the first 1000 writes are phase 1, one byte
      holding the index modulo 256; the next 1000 are phase 2, eight bytes
      each equal to the phase index (the position less 1000) modulo 256. */
  lemma Payloads(target: Characteristic)
    ensures forall k :: 0 <= k < NumSamples ==>
              |Plan(target)[k].data| == 1 && Plan(target)[k].data[0] as int == k % 256
    ensures forall k :: NumSamples <= k < 2 * NumSamples ==> |Plan(target)[k].data| == 8
    ensures forall k, j :: NumSamples <= k < 2 * NumSamples && 0 <= j < 8 ==>
              Plan(target)[k].data[j] as int == (k - NumSamples) % 256
  {
    forall k | 0 <= k < NumSamples
      ensures |Plan(target)[k].data| == 1 && Plan(target)[k].data[0] as int == k % 256
    {
      assert Plan(target)[k].data == [AsU8(k)];
    }
    forall k | NumSamples <= k < 2 * NumSamples
      ensures Plan(target)[k].data == Repeat(AsU8(k - NumSamples), 8)
    {
    }
  }

  /** The number of payload bytes of a sequence of writes. */
  function TotalBytes(ws: seq<WriteRequest>): nat {
    if ws == [] then 0 else |ws[0].data| + TotalBytes(ws[1..])
  }

  lemma {:induction false} UniformTotal(ws: seq<WriteRequest>, n: nat)
    requires forall k :: 0 <= k < |ws| ==> |ws[k].data| == n
    ensures TotalBytes(ws) == n * |ws|
  {
    if ws != [] {
      UniformTotal(ws[1..], n);
    }
  }

  /** Phase 1 sends 1000 bytes and phase 2 8000 bytes when no write fails:
      8000 and 64000 bits, the numerators `num_samples * 8` and
      `num_samples * 8 * 8` of the two throughput figures. */
  lemma PhaseTotals(target: Characteristic)
    ensures TotalBytes(Plan(target)[..NumSamples]) == NumSamples
    ensures TotalBytes(Plan(target)[NumSamples..]) == 8 * NumSamples
    ensures 8 * TotalBytes(Plan(target)[..NumSamples]) == NumSamples * 8
    ensures 8 * TotalBytes(Plan(target)[NumSamples..]) == NumSamples * 8 * 8
  {
    var plan := Plan(target);
    Payloads(target);
    UniformTotal(plan[..NumSamples], 1);
    UniformTotal(plan[NumSamples..], 8);
  }
}
