# bluedroid-testbench test cases, modelled in Dafny

bluedroid-testbench checks a Bluetooth Low Energy peripheral over its GATT
server. It has four test cases behind one `BleTest` interface (`name()`
and `run(peripheral)`). This project models those four test cases, and
proves what each one accepts and rejects:

- **Service list** (`ServiceList`). The peripheral exposes exactly the two
  custom services 46548881-... and 2BC08F60-..., in any order.
- **Advertising service characteristics** (`AdvertisingServiceCharacteristics`).
  The first service with UUID 46548881-... has exactly the characteristics
  AF679F91-... and 22E32A0E-....
- **Other service characteristics** (`OtherServiceCharacteristics`). The
  first service with UUID 2BC08F60-... has exactly the characteristic
  6482DF69-... with flags READ | NOTIFY and the characteristic B0D2A14A-...
  with flags READ | INDICATE.
- **Write stress test** (`WriteStressTest`). 1000 one-byte writes without
  response, then 1000 eight-byte writes without response, all to the
  characteristic 22E32A0E-.... The first write the stack rejects ends the
  test with that error.

`Gatt` holds the data the BLE stack reports and the idioms the test cases
are built from:

- the services and characteristics, with UUIDs as 128-bit numbers and the
  `CharPropFlags` property byte as a `bv8` laid out as in btleplug;
- a test case's `Outcome`: a pass, a failure, or a panic from `unwrap` on a
  lookup that found nothing;
- `find`, which returns the first match in list order;
- `Ensures`, a chain of `ensure!` guards where the first guard that does not
  hold returns its error.

A failure is a structured value (`Gatt.Failure`).
`Diagnostics.Message` renders it as the text the source's format strings
produce. Counts are shown in decimal and UUIDs in the hyphenated
8-4-4-4-12 form. Flag sets are shown as their names only; "## Left out"
says where that differs from the `Debug` output.

`BleTests` lists the four variants and the names they report.

The three GATT test cases are pure functions. Each takes the result of
`discover_services` and the list of services the peripheral then reports.
The stress test changes state, so it is an imperative method. It runs over
a `Peripheral` object that keeps a log of the writes issued. The stack's
answer to each write comes from a function of the earlier writes and the
new one. `Run` is proved against `Verdict` and `Attempts`. These functions
give the outcome and the number of writes issued, in terms of the first
rejected write of the planned sequence `Plan`.

Notes on the code:

- The advertising-service test compares no property flags. Lemma
  `PropertiesIgnored` shows its outcome does not depend on them.
- Its two "not found" messages name the service UUIDs 46548881-... and
  2BC08F60-... rather than the characteristic that is missing. See
  `MisnamedDiagnostics` and `MisnamedText`.
- Both characteristic tests report the name "Advertising service
  characteristics". See `BleTests.BleTest.Name`.
- There is no test runner and no pass/fail report. `main.rs` does not use
  the test cases at all.

## Model

| member | source | states |
|---|---|---|
| Gatt.Map | src/tests/service_list.rs:29 | `iter().map(f).collect()` keeps the length, and element i of the result is f of element i |
| Gatt.Find | src/tests/advertising_service_characteristics.rs:21-26 | `find` gives nothing exactly when no element matches; otherwise it gives the element at the first matching position, which satisfies the predicate and is in the list |
| Gatt.FirstExists | src/tests/advertising_service_characteristics.rs:21-26 | if some element matches, a first matching position exists |
| Gatt.Ensures | src/tests/service_list.rs:22-39 | a chain of `ensure!` never panics, passes iff every guard holds, and otherwise returns the error of the first guard that fails |
| Gatt.PairOfDistinct | src/tests/service_list.rs:22-39 | for two distinct UUIDs, a count of two plus a membership check for each hold together iff the list is a permutation of the two |
| Gatt.EnsuresAppend | src/tests/other_service_characteristics.rs:34-82 | running two guard chains one after the other is the same as running their concatenation |
| ServiceList.Run | src/tests/service_list.rs:16-42 | a discovery error is returned as the test's error; the test never panics; it passes iff discovery succeeded and the service UUIDs are 46548881-... and 2BC08F60-..., each exactly once, in either order |
| ServiceList.Guards | src/tests/service_list.rs:22-39 | the three guards of the test (count 2, contains 46548881-..., contains 2BC08F60-...) all hold iff the service UUIDs are a permutation of the two expected UUIDs |
| ServiceList.PassIff | src/tests/service_list.rs:22-39 | the test passes iff there are two services and some service has each expected UUID |
| ServiceList.FirstFailingGuardReported | src/tests/service_list.rs:22-39 | the outcome is the count error if there are not two services, whatever their UUIDs; otherwise the error for 46548881-... if it is absent; otherwise the error for 2BC08F60-... if it is absent; otherwise a pass |
| ServiceList.CountMessage | src/tests/service_list.rs:22-26 | with a service count other than 2, the error text is "Expected 2 services, found " followed by the count in decimal |
| ServiceList.OnlyOneServiceScenario | src/tests/service_list.rs:22-26 | a device with one service fails with the text "Expected 2 services, found 1" |
| ServiceList.DuplicateServiceFails | src/tests/service_list.rs:29-39 | two services that both have UUID 46548881-... pass the count guard but fail because 2BC08F60-... is missing |
| ServiceList.VerdictOrderIndependent | src/tests/service_list.rs:19-39 | reordering the services changes neither whether the test passes nor which guard fails |
| ServiceList.SameUuidMembership | src/tests/service_list.rs:29 | a UUID present in one service list is present in every reordering of that list |
| AdvertisingServiceCharacteristics.CheckService | src/tests/advertising_service_characteristics.rs:27-51 | the checks on the inspected service never panic, and pass iff its characteristic UUIDs are AF679F91-... and 22E32A0E-..., each exactly once |
| AdvertisingServiceCharacteristics.Run | src/tests/advertising_service_characteristics.rs:16-52 | a discovery error is returned; the test panics iff no service has UUID 46548881-...; otherwise it passes iff the first such service has exactly the two expected characteristic UUIDs |
| AdvertisingServiceCharacteristics.Guards | src/tests/advertising_service_characteristics.rs:33-49 | the three guards of the test (count 2, contains AF679F91-..., contains 22E32A0E-...) all hold iff the characteristic UUIDs are a permutation of those two |
| AdvertisingServiceCharacteristics.FirstServiceInspected | src/tests/advertising_service_characteristics.rs:21-26 | when several services have UUID 46548881-..., only the first in list order decides the outcome |
| AdvertisingServiceCharacteristics.FirstFailingGuardReported | src/tests/advertising_service_characteristics.rs:33-49 | the guards are checked in source order (count, AF679F91-..., 22E32A0E-...), and the first one that fails gives the error |
| AdvertisingServiceCharacteristics.PropertiesIgnored | src/tests/advertising_service_characteristics.rs:27-51 | two service lists that differ only in characteristic flags have the same outcome |
| AdvertisingServiceCharacteristics.MisnamedDiagnostics | src/tests/advertising_service_characteristics.rs:38-49 | a missing AF679F91-... is reported with a text naming 46548881-..., and a missing 22E32A0E-... with one naming 2BC08F60-...; neither named UUID is the characteristic that was sought |
| AdvertisingServiceCharacteristics.MisnamedText | src/tests/advertising_service_characteristics.rs:41 | in the text for a missing AF679F91-..., the eight digits after "Expected to find characteristic " read 46548881, while the characteristic sought begins AF679F91 |
| OtherServiceCharacteristics.Run | src/tests/other_service_characteristics.rs:16-85 | a discovery error is returned; the test panics iff no service has UUID 2BC08F60-...; otherwise it passes iff the first such service's characteristics are, flags included, a permutation of 6482DF69-... (READ, NOTIFY) and B0D2A14A-... (READ, INDICATE) |
| OtherServiceCharacteristics.PassIffExact | src/tests/other_service_characteristics.rs:34-84 | the checks on the inspected service never panic, and pass iff its characteristics are, flags included, a permutation of the two expected characteristics |
| OtherServiceCharacteristics.LookupsSucceed | src/tests/other_service_characteristics.rs:39-74 | once the count and membership guards pass, the two later `find(...).unwrap()` lookups find a characteristic and do not panic |
| OtherServiceCharacteristics.PassInOrder | src/tests/other_service_characteristics.rs:34-84 | with exactly the two expected UUIDs in either order, the structural guards pass and the outcome is a pass iff both flag sets are the expected ones |
| OtherServiceCharacteristics.Misstructured | src/tests/other_service_characteristics.rs:34-50 | any list that is not the two expected UUIDs fails one of the three structural guards, the outcome is that guard's failure, and the list is not a permutation of the expected characteristics |
| OtherServiceCharacteristics.MembershipGuards | src/tests/other_service_characteristics.rs:34-50 | the three structural guards (count 2, contains 6482DF69-..., contains B0D2A14A-...) all hold iff the characteristic UUIDs are a permutation of those two |
| OtherServiceCharacteristics.PropertyCheck | src/tests/other_service_characteristics.rs:52-66 | the lookup and flag check panics iff no characteristic has the UUID; otherwise it looks only at the first one with the UUID, passes iff its flags equal the expected ones, and else fails with the expected and the found flags |
| OtherServiceCharacteristics.CheckCharacteristics | src/tests/other_service_characteristics.rs:34-84 | the checks on the inspected service never panic: after the structural guards pass, both `find(...).unwrap()` lookups succeed |
| OtherServiceCharacteristics.PairOf | src/tests/other_service_characteristics.rs:34-50 | two characteristics whose UUIDs match those of x and y are a permutation of x and y iff they equal x and y |
| OtherServiceCharacteristics.FiveGuardsInOrder | src/tests/other_service_characteristics.rs:34-82 | the test's checks are one chain of five guards in source order: count, 6482DF69-..., B0D2A14A-..., the notifying characteristic's flags, the indicating characteristic's flags |
| OtherServiceCharacteristics.ExactNotifyingFlags | src/tests/other_service_characteristics.rs:60-66 | once the structure is right, any flag set on 6482DF69-... other than exactly READ and NOTIFY fails with the expected and the found flags |
| OtherServiceCharacteristics.ExactIndicatingFlags | src/tests/other_service_characteristics.rs:76-82 | once the structure and the notifying flags are right, any flag set on B0D2A14A-... other than exactly READ and INDICATE fails with the expected and the found flags |
| OtherServiceCharacteristics.SupersetFails | src/tests/other_service_characteristics.rs:60-66 | the comparison is equality, not inclusion: READ, NOTIFY and WRITE on the notifying characteristic fails |
| OtherServiceCharacteristics.FirstServiceInspected | src/tests/other_service_characteristics.rs:21-26 | when several services have UUID 2BC08F60-..., only the first in list order decides the outcome |
| WriteStressTest.Peripheral.Write | src/tests/write_stress_test.rs:30 | a write is appended to the peripheral's log, and its result is the stack's answer given the writes issued before it |
| WriteStressTest.AsU8 | src/tests/write_stress_test.rs:29 | `i as u8` is i modulo 256 |
| WriteStressTest.Repeat | src/tests/write_stress_test.rs:45 | `vec![b; n]` has n elements, all equal to b |
| WriteStressTest.Plan | src/tests/write_stress_test.rs:26-47 | the test plans 2000 writes, 1000 in each phase |
| WriteStressTest.Writable | src/tests/write_stress_test.rs:18-22 | the lookup of 22E32A0E-... finds nothing iff no characteristic has that UUID; otherwise it finds the first listed characteristic with that UUID |
| WriteStressTest.FirstRejected | src/tests/write_stress_test.rs:28-31 | gives nothing iff every planned write from the start position on is accepted; otherwise gives the position of the first rejected one |
| WriteStressTest.Run | src/tests/write_stress_test.rs:17-57 | a missing 22E32A0E-... characteristic panics before any write; otherwise the planned writes are issued in order up to and including the first one rejected; the outcome is that write's error, or a pass when none is rejected |
| WriteStressTest.Step | src/tests/write_stress_test.rs:28-31 | after an accepted write the accepted prefix grows by one; a rejected write is the first rejection, its error is the verdict, and the log ends with it |
| WriteStressTest.NoneRejected | src/tests/write_stress_test.rs:56 | when every planned write is accepted, the test passes and all of them were issued |
| WriteStressTest.VerdictAndAttempts | src/tests/write_stress_test.rs:28-56 | the test never panics after the lookup; it passes iff every write is accepted, and then all 2000 are issued; otherwise the last write issued is the first rejected one, every earlier one was accepted, and its error is the outcome |
| WriteStressTest.SameTargetWithoutResponse | src/tests/write_stress_test.rs:30 | every planned write goes to the writable characteristic, without response |
| WriteStressTest.Payloads | src/tests/write_stress_test.rs:28-47 | write k of phase 1 is the single byte k mod 256; write k of phase 2 is eight bytes, each k mod 256 |
| WriteStressTest.UniformTotal | src/tests/write_stress_test.rs:37 | writes that all carry n bytes carry n times their number in total |
| WriteStressTest.PhaseTotals | src/tests/write_stress_test.rs:37-53 | phase 1 sends 1000 bytes and phase 2 sends 8000 bytes; in bits these are the numerators `num_samples * 8` and `num_samples * 8 * 8` of the two throughput figures |
| BleTests.BleTest.Name | src/tests/other_service_characteristics.rs:12-14 | the name "Advertising service characteristics" is reported by both characteristic tests and by no other test; the service list test is named "Service list" and the stress test "Write stress test" |
| Diagnostics.Message | src/tests/service_list.rs:22-39 | a stack error keeps its own text; a count text is its prefix then decimal digits that read back as the count; a "not found" text is its prefix then a UUID whose first group reads back as that of the named UUID, and it ends in ", found " and the list of the UUIDs present |
| Diagnostics.DecimalRoundTrip | src/tests/service_list.rs:24-25 | a count's text is one or more decimal digits, has no leading zero, and reads back as the count |
| Diagnostics.HexRoundTrip | src/tests/service_list.rs:32-33 | w hexadecimal digits of a number below 16^w read back as that number |
| Diagnostics.HyphenatedFirstGroup | src/tests/service_list.rs:32-33 | the first eight characters of a hyphenated UUID read back as its top 32 bits |
| Diagnostics.NotFoundNamesUuid | src/tests/service_list.rs:32-33 | a "not found" text begins with its fixed prefix, the eight digits that follow read back as the first group of the UUID it names, and after that UUID comes ", found " and the list of the UUIDs present |
| Diagnostics.ItemsAt | src/tests/service_list.rs:32-34 | the items of a UUID list take 38 characters each but the last, which takes 36, and item j is the j-th UUID hyphenated in lower case |
| Diagnostics.ListedUuid | src/tests/service_list.rs:32-34 | a UUID list is bracketed, is 38 characters per UUID long, and item j is the j-th UUID hyphenated in lower case, whose first eight digits read back as that UUID's top 32 bits |

## Left out

- `main.rs` is not part of this model. It covers the adapter, the scan filtered by the advertised service UUID FAFAFAFA-FAFA-FAFA-FAFA-FAFAFAFAFAFA (`main.rs`:46), the unbounded polling loop that resolves the discovered device, connecting, and service discovery. None of it calls the test cases.
- `flash.rs` is not part of this model. It flashes firmware through an external program.
- Logging (`info!`), the clock, and the `f64` throughput figures are left out. Floating point and time are not modelled. Only the byte and bit counts behind the figures are stated (`PhaseTotals`).
- btleplug reports services and characteristics in set order. The model takes the lists in any order, and the order-independence lemmas cover the guards that do not depend on order.
- Parsing the UUID literals with `Uuid::from_str(...).unwrap()` is replaced by the 128-bit constants they denote. Those parses cannot fail.
- A BLE stack error is kept as an opaque description and its text is passed through unchanged.
- Asynchrony (`async`/`await`) is flattened to sequential calls. The answers of the BLE stack are inputs of the model: the result of `discover_services`, the service list, and the `respond` function of `WriteStressTest.Peripheral`.
- The `run` half of the `BleTest` interface is not a dispatch function: each module's `Run` is that variant's `run`.
- `Diagnostics.Message`: the property flags are rendered as their names joined by " | ". The wrapper that the bitflags crate's `Debug` adds around them differs between versions and is not modelled. An empty flag byte renders as the empty string, where bitflags prints "(empty)" (1.x) or "CharPropFlags(0x0)" (2.x). No contract is stated about the text of a flag mismatch.
- `Diagnostics.NotFoundNamesUuid`: only the first group (top 32 bits) of the named UUID, and of each UUID in the list, is read back. That is enough to distinguish the six UUIDs of the harness. The other four groups are rendered but no lemma reads them back.
- `Diagnostics.HexRoundTrip`: stated only for numbers that fit in the given number of digits. The first group of a UUID always fits. `HyphenatedTail` renders the other four groups from larger numbers, which `Hex` truncates to their low digits, and no lemma reads those groups back.
- A test runner and a pass/fail report do not exist in the code, so there is nothing to model for them.
