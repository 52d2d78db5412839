/** The four test cases behind the `BleTest` interface, and the names they
    report. */
module BleTests {

  datatype BleTest =
    | ServiceListTest
    | AdvertisingServiceCharacteristicsTest
    | OtherServiceCharacteristicsTest
    | WriteWithoutResponseStressTest
  {
    /** `name()`. The two characteristic tests report the same name, so a
        name does not tell them apart. */
    function Name(): (name: string)
      ensures name == "Advertising service characteristics" <==>
                (AdvertisingServiceCharacteristicsTest? || OtherServiceCharacteristicsTest?)
      ensures ServiceListTest? ==> name == "Service list"
      ensures WriteWithoutResponseStressTest? ==> name == "Write stress test"
    {
      match this
      case ServiceListTest => "Service list"
      case AdvertisingServiceCharacteristicsTest => "Advertising service characteristics"
      case OtherServiceCharacteristicsTest => "Advertising service characteristics"
      case WriteWithoutResponseStressTest => "Write stress test"
    }
  }
}
