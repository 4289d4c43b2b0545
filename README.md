# BluetoothKit GATT session core in Dafny

This project models the per-peripheral GATT session of the BluetoothKit iOS SDK and proves properties of the model. A session is `BluetoothGATT`, one object per Bluetooth peripheral. The model covers:

* The session's connection status and how observers hear of it.
* Profile discovery, which pairs the services and characteristics the app declares with those the peripheral reports.
* The checks made before a read, write or subscribe request is queued.
* Routing of value updates to the task queue and to notify listeners.
* The notify-listener table.

It also covers the value types the session is built on:

* The declared profile (`BluetoothGATTProfile`).
* Services (`BluetoothGATTService`), with identity by UUID.
* Characteristics with their 4-bit capability option set (`BluetoothGATTCharacteristic`, `BluetoothGATTCharacteristicType`).
* The hexadecimal helpers of `BluetoothIOTTool`.

The SDK ships two builds of the session, with different rules, and they are modelled as two separate classes:

* `GattSession.BluetoothGatt` is the device build (arm64):
  * it stores the status and notifies only on change;
  * it matches UUIDs ignoring case;
  * it reports one failure per missing service, and one per characteristics callback that leaves a declared characteristic unresolved;
  * its disconnect reason decides auto-reconnect.
* `GattSimulator.BluetoothGatt` is the simulator build:
  * the status is the radio's peripheral state, and every assignment is announced;
  * UUIDs are matched exactly, and a missing service is skipped silently;
  * the disconnect flag becomes by-system unless it was by-user;
  * in notifications, data wins over an error.

The session talks to collaborators whose code is not part of this model:

* the task queue;
* the connection timeout monitor;
* the notify data combiner;
* the central manager;
* the radio's `discoverCharacteristics`.

Each call into them is appended to a ghost trace `calls`. Calls on observers (`BluetoothGATTDelegate`) are appended to the log `notifications`. Contracts of the session's methods state the new fields, the new handle slots and exactly what was appended to both logs.

Modules (one per file):

| module | file | models |
|---|---|---|
| `Foundation` | foundation.dfy | `Optional`, `Result`, `UInt8`, `first(where:)`, ASCII `uppercased()` |
| `Radio` | radio.dfy | CoreBluetooth stand-ins: `CBUUID` as its string, `CBPeripheral` with its state, reported services and characteristics |
| `GattCommon` | gatt_common.dfy | disconnect flags, initialize state, connect priority, GATT errors, write types |
| `GattService` | gatt_service.dfy | `BluetoothGATTService` |
| `GattCharacteristic` | gatt_characteristic.dfy | `BluetoothGATTCharacteristicType` and `BluetoothGATTCharacteristic`, with the write-type choice of `writeData` |
| `GattProfile` | gatt_profile.dfy | `BluetoothGATTProfile` and the readiness predicates |
| `IotTool` | iot_tool.dfy | `BluetoothIOTTool.Helper` and `BluetoothIOTTool.Decoder` |
| `GattSession` | gatt_session.dfy | `BluetoothGATT` of the device build |
| `GattSimulator` | gatt_simulator.dfy | `BluetoothGATT` of the simulator build |

Source paths below are abbreviated as follows:

* `A/` = `BluetoothSDK.xcframework/ios-arm64/BluetoothSDK.framework/Headers/`
* `S/` = `BluetoothSDK.xcframework/ios-x86_64-simulator/BluetoothSDK.framework/Headers/`

The table cells give them in full.

### Notes on the source

* `A/BluetoothGATT.swift:398-399`: the services-discovered callback hands the task queue a `gattInitialized` event with the error `gattInitialFailed` from inside the loop over the declared services. So it reports one failure for each declared service the peripheral does not report (`GattSession.OneFailurePerMissingService`).
* `A/BluetoothGATT.swift:447-448` and `S/BluetoothGATT.swift:307-308`: in both builds, the value-update callback returns from its read branch when the characteristic is readable and the update carries no value. For a characteristic that both reads and notifies, an update with an error and no value therefore reaches no listener, and no `gattNotifyFailed` is reported (`ReadWithoutValueDeliversNothing` in both modules).
* `A/BluetoothIOTTool.swift:48`: `HexString(with:)` parses its argument with Swift's `UInt8(String)`. That parser accepts a leading `+` (`"+7"` is 7) and reads `"-0"` as 0. `IotTool.IsByteNumeral` includes both forms.
* `A/BluetoothIOTTool.swift:26-27` and `:54`: the doc comment of `DecodeDataToHexString` shows its example output in lower-case hex. The `%X` format at line 54 prints upper case, and the model follows line 54.

## Model

| member | source | states |
|---|---|---|
| Foundation.FirstWhere | BluetoothSDK.xcframework/ios-arm64/BluetoothSDK.framework/Headers/BluetoothGATT.swift:390 | `first(where:)` is None iff no element satisfies the predicate; otherwise it is the earliest element that does |
| Foundation.FirstWhereFound | BluetoothSDK.xcframework/ios-arm64/BluetoothSDK.framework/Headers/BluetoothGATT.swift:390 | an element `first(where:)` returns satisfies the predicate and belongs to the sequence |
| Foundation.Upper | BluetoothSDK.xcframework/ios-arm64/BluetoothSDK.framework/Headers/BluetoothGATT.swift:390 | `uppercased()` of an ASCII string has the same length, turns each lower-case letter into its upper-case form and leaves every other character unchanged |
| Foundation.FirstWhereAgree | BluetoothSDK.xcframework/ios-arm64/BluetoothSDK.framework/Headers/BluetoothGATT.swift:390 | two predicates that agree on every element select the same element |
| Foundation.SameIgnoringCaseIsEquivalence | BluetoothSDK.xcframework/ios-arm64/BluetoothSDK.framework/Headers/BluetoothGATT.swift:390 | comparing `uppercased()` strings is reflexive, symmetric and transitive, and contains equality |
| Foundation.SameIgnoringCaseOfUpper | BluetoothSDK.xcframework/ios-arm64/BluetoothSDK.framework/Headers/BluetoothGATT.swift:390 | a string and its upper-cased form compare equal ignoring case |
| Foundation.UpperIdempotent | BluetoothSDK.xcframework/ios-arm64/BluetoothSDK.framework/Headers/BluetoothGATT.swift:390 | upper-casing twice equals upper-casing once |
| Foundation.SameIgnoringCaseByCharacter | BluetoothSDK.xcframework/ios-arm64/BluetoothSDK.framework/Headers/BluetoothGATT.swift:390 | comparing `uppercased()` strings holds iff the lengths agree and each position holds the same character or a lower-case letter against its upper-case form |
| Foundation.SameIgnoringCaseExamples | BluetoothSDK.xcframework/ios-arm64/BluetoothSDK.framework/Headers/BluetoothGATT.swift:390 | "180a" and "180A" differ but compare equal ignoring case; "180a" differs from "180B" and from "180" |
| GattCharacteristic.FlagRawValues | BluetoothSDK.xcframework/ios-arm64/BluetoothSDK.framework/Headers/BluetoothGATTCharacteristic.swift:14-17 | the four capabilities have raw values 1, 2, 4 and 8 |
| GattCharacteristic.CharacteristicType.Contains | BluetoothSDK.xcframework/ios-arm64/BluetoothSDK.framework/Headers/BluetoothGATTCharacteristic.swift:12-22 | `OptionSet.contains`: every bit of the member is set (for a single capability, its bit; `ContainsFlagIffBitSet`) |
| GattCharacteristic.CharacteristicType.Union | BluetoothSDK.xcframework/ios-arm64/BluetoothSDK.framework/Headers/BluetoothGATTCharacteristic.swift:12-22 | `OptionSet.union`: the bitwise or, which contains both operands and, for capabilities, no third one (`UnionContainsMembers`, `UnionOfFlagsContainsOnlyMembers`) |
| GattCharacteristic.FlagsAreDisjointBits | BluetoothSDK.xcframework/ios-arm64/BluetoothSDK.framework/Headers/BluetoothGATTCharacteristic.swift:14-17 | each capability is one nonzero bit, and distinct capabilities share no bit |
| GattCharacteristic.ContainsFlagIffBitSet | BluetoothSDK.xcframework/ios-arm64/BluetoothSDK.framework/Headers/BluetoothGATTCharacteristic.swift:12-22 | `contains(f)` holds iff f's bit is set in the raw value |
| GattCharacteristic.UnionContainsMembers | BluetoothSDK.xcframework/ios-arm64/BluetoothSDK.framework/Headers/BluetoothGATTCharacteristic.swift:12-22 | a union contains both operands |
| GattCharacteristic.UnionOfFlagsContainsOnlyMembers | BluetoothSDK.xcframework/ios-arm64/BluetoothSDK.framework/Headers/BluetoothGATTCharacteristic.swift:12-22 | a union of two capabilities contains a capability iff it is one of the two |
| GattCharacteristic.Characteristic.constructor | BluetoothSDK.xcframework/ios-arm64/BluetoothSDK.framework/Headers/BluetoothGATTCharacteristic.swift:26-36 | a new characteristic has the given uuid, type and service and no resolved handle; type and service are `let` in the source and constant in the model, and on `uuid` see "## Left out" |
| GattCharacteristic.SelectWriteType | BluetoothSDK.xcframework/ios-arm64/BluetoothSDK.framework/Headers/BluetoothGATT.swift:209-217 | with response iff that flag is present; without response iff only that flag is present; `writeNotSupport(uuid)` iff neither is |
| GattCharacteristic.BothWriteFlagsPreferResponse | BluetoothSDK.xcframework/ios-arm64/BluetoothSDK.framework/Headers/BluetoothGATT.swift:210-212 | any capability set containing both write flags, whatever else it holds, is written with response |
| GattCharacteristic.ReadNotifyIsNotWritable | BluetoothSDK.xcframework/ios-arm64/BluetoothSDK.framework/Headers/BluetoothGATT.swift:214-216 | any capability set with neither write flag (read, notify, or both) fails with `writeNotSupport` naming the characteristic |
| GattCharacteristic.ReadNotifyHasNoWriteFlag | BluetoothSDK.xcframework/ios-arm64/BluetoothSDK.framework/Headers/BluetoothGATTCharacteristic.swift:14-17 | the read-and-notify set contains read and notify and neither write flag |
| GattCommon.PlatformError | BluetoothSDK.xcframework/ios-arm64/BluetoothSDK.framework/Headers/BluetoothGATT.swift:434-436 | the queue receives no error iff the callback had none, else that platform error |
| GattService.Service.constructor | BluetoothSDK.xcframework/ios-x86_64-simulator/BluetoothSDK.framework/Headers/BluetoothGATTService.swift:14-18 | a new service has the given uuid and no handle |
| GattService.Service.Equals | BluetoothSDK.xcframework/ios-x86_64-simulator/BluetoothSDK.framework/Headers/BluetoothGATTService.swift:21-24 | two services are equal iff their UUIDs are, whatever their handles hold |
| GattService.Service.HashValue | BluetoothSDK.xcframework/ios-x86_64-simulator/BluetoothSDK.framework/Headers/BluetoothGATTService.swift:26-28 | `hash(into:)` feeds only the UUID (`HashOnlyUuid`) |
| GattService.HashOnlyUuid | BluetoothSDK.xcframework/ios-x86_64-simulator/BluetoothSDK.framework/Headers/BluetoothGATTService.swift:26-28 | services with the same UUID hash alike; the hash reads no handle |
| GattService.EqualsIsEquivalence | BluetoothSDK.xcframework/ios-x86_64-simulator/BluetoothSDK.framework/Headers/BluetoothGATTService.swift:22-24 | service equality is reflexive, symmetric and transitive |
| GattProfile.ServicesOf | BluetoothSDK.xcframework/ios-x86_64-simulator/BluetoothSDK.framework/Headers/BluetoothGATTProfile.swift:17 | the i-th entry is the service of the i-th characteristic |
| GattProfile.DedupByUuid | BluetoothSDK.xcframework/ios-x86_64-simulator/BluetoothSDK.framework/Headers/BluetoothGATTProfile.swift:18-19 | the result has distinct UUIDs, draws only from its input and covers every UUID of it not yet seen |
| GattProfile.NewProfile | BluetoothSDK.xcframework/ios-x86_64-simulator/BluetoothSDK.framework/Headers/BluetoothGATTProfile.swift:13-19 | characteristics are kept as given; every characteristic's service is represented in `services`; each entry of `services` is some characteristic's service; no two entries share a UUID; there are no more services than characteristics, and none for no characteristics |
| GattProfile.DedupCoversCharacteristics | BluetoothSDK.xcframework/ios-x86_64-simulator/BluetoothSDK.framework/Headers/BluetoothGATTProfile.swift:17-19 | every declared characteristic's service is equal to a kept service |
| GattProfile.ServiceOfMemberIsListed | BluetoothSDK.xcframework/ios-x86_64-simulator/BluetoothSDK.framework/Headers/BluetoothGATTProfile.swift:17 | a declared characteristic's service is among the mapped services |
| GattProfile.DedupComesFromCharacteristics | BluetoothSDK.xcframework/ios-x86_64-simulator/BluetoothSDK.framework/Headers/BluetoothGATTProfile.swift:17-19 | every kept service is the service of a declared characteristic |
| GattProfile.DistinctUuidsAreDistinct | BluetoothSDK.xcframework/ios-x86_64-simulator/BluetoothSDK.framework/Headers/BluetoothGATTProfile.swift:18-19 | deduplicated services are distinct objects |
| GattProfile.ServicesResolved | BluetoothSDK.xcframework/ios-arm64/BluetoothSDK.framework/Headers/BluetoothGATT.swift:94 | `allSatisfy { service != nil }` holds iff every entry has a handle |
| GattProfile.CharacteristicsResolved | BluetoothSDK.xcframework/ios-arm64/BluetoothSDK.framework/Headers/BluetoothGATT.swift:101 | `allSatisfy { characteristic != nil }` holds iff every entry has a handle |
| GattProfile.ProfileResolved | BluetoothSDK.xcframework/ios-arm64/BluetoothSDK.framework/Headers/BluetoothGATT.swift:93-109 | `isReadyToInitiate` holds iff every declared service and every declared characteristic has a handle |
| GattProfile.UnresolvedOfService | BluetoothSDK.xcframework/ios-arm64/BluetoothSDK.framework/Headers/BluetoothGATT.swift:412-421 | contains exactly the declared characteristics of the service, up to case, that still lack a handle |
| IotTool.FormatUpperHex | BluetoothSDK.xcframework/ios-arm64/BluetoothSDK.framework/Headers/BluetoothIOTTool.swift:54 | `%X` prints at least one digit |
| IotTool.FormatUpperHexOfByte | BluetoothSDK.xcframework/ios-arm64/BluetoothSDK.framework/Headers/BluetoothIOTTool.swift:54 | `%X` prints a byte with one digit below 16 and two digits from 16 on |
| IotTool.HexOfByte | BluetoothSDK.xcframework/ios-arm64/BluetoothSDK.framework/Headers/BluetoothIOTTool.swift:53-59 | always two characters: the high and the low upper-case digit, with a leading '0' below 16 |
| IotTool.HexDigitValue | BluetoothSDK.xcframework/ios-arm64/BluetoothSDK.framework/Headers/BluetoothIOTTool.swift:53-59 | a recognised hex digit has a value below 16 |
| IotTool.HexDigitRoundTrip | BluetoothSDK.xcframework/ios-arm64/BluetoothSDK.framework/Headers/BluetoothIOTTool.swift:54 | reading back a printed digit gives its value |
| IotTool.HexOfByteRoundTrip | BluetoothSDK.xcframework/ios-arm64/BluetoothSDK.framework/Headers/BluetoothIOTTool.swift:53-59 | parsing the two digits of a byte's hex text gives the byte |
| IotTool.HexOfByteInjective | BluetoothSDK.xcframework/ios-arm64/BluetoothSDK.framework/Headers/BluetoothIOTTool.swift:53-59 | distinct bytes have distinct hex text |
| IotTool.DecodeDataToBytes | BluetoothSDK.xcframework/ios-arm64/BluetoothSDK.framework/Headers/BluetoothIOTTool.swift:21-24 | the same bytes, in order, same length |
| IotTool.DecodeDataToHexString | BluetoothSDK.xcframework/ios-arm64/BluetoothSDK.framework/Headers/BluetoothIOTTool.swift:33-38 | each byte's two-digit hex, optionally prefixed with 0x, joined by the connector; its length, empty case and round trip are `DecodeDataToHexStringLength`, `DecodeEmptyData` and `DecodeDataToHexStringRoundTrip` |
| IotTool.HexParts | BluetoothSDK.xcframework/ios-arm64/BluetoothSDK.framework/Headers/BluetoothIOTTool.swift:35 | helper: the `map` at line 35, one part per byte (its properties are proved by `DecodeDataToHexStringLength` and `DecodeDataToHexStringRoundTrip`) |
| IotTool.JoinLength | BluetoothSDK.xcframework/ios-arm64/BluetoothSDK.framework/Headers/BluetoothIOTTool.swift:36 | joining n equal-length parts takes n times that length plus n-1 separators |
| IotTool.DecodeDataToHexStringLength | BluetoothSDK.xcframework/ios-arm64/BluetoothSDK.framework/Headers/BluetoothIOTTool.swift:33-38 | output length is n*(2+p) + max(n-1,0)*\|connector\|, p = 2 with the prefix and 0 without |
| IotTool.DecodeEmptyData | BluetoothSDK.xcframework/ios-arm64/BluetoothSDK.framework/Headers/BluetoothIOTTool.swift:33-38 | no bytes give the empty string |
| IotTool.DecodeDataToHexStringRoundTrip | BluetoothSDK.xcframework/ios-arm64/BluetoothSDK.framework/Headers/BluetoothIOTTool.swift:33-38 | with no connector and no prefix, decoding the text two digits at a time gives back the bytes |
| IotTool.HexOfDecimalString | BluetoothSDK.xcframework/ios-arm64/BluetoothSDK.framework/Headers/BluetoothIOTTool.swift:47-51 | a result, when there is one, is two characters long |
| IotTool.ParseUInt8 | BluetoothSDK.xcframework/ios-arm64/BluetoothSDK.framework/Headers/BluetoothIOTTool.swift:48 | `UInt8(String)`: optional sign, at least one digit, nil on a non-digit or when the value leaves 0...255 (its meaning is stated by `HexOfDecimalStringSpec`) |
| IotTool.AccumulateDigits | BluetoothSDK.xcframework/ios-arm64/BluetoothSDK.framework/Headers/BluetoothIOTTool.swift:48 | the digit loop of `UInt8(String)`, nil on a non-digit or on leaving 0...255; it equals the decimal value (`AccumulateMatchesValue`, `AccumulateNegative`) |
| IotTool.DecimalValueGrows | BluetoothSDK.xcframework/ios-arm64/BluetoothSDK.framework/Headers/BluetoothIOTTool.swift:48 | reading more digits never lowers the value |
| IotTool.AccumulateMatchesValue | BluetoothSDK.xcframework/ios-arm64/BluetoothSDK.framework/Headers/BluetoothIOTTool.swift:48 | unsigned, the digit loop gives the decimal value iff all are digits and the value is at most 255, else nil |
| IotTool.AccumulateNegative | BluetoothSDK.xcframework/ios-arm64/BluetoothSDK.framework/Headers/BluetoothIOTTool.swift:48 | after '-', the digit loop gives 0 iff every digit is zero, else nil |
| IotTool.HexOfDecimalStringSpec | BluetoothSDK.xcframework/ios-arm64/BluetoothSDK.framework/Headers/BluetoothIOTTool.swift:47-51 | nil iff the string is not a byte numeral; otherwise the two-digit hex of its decimal value |
| IotTool.DecimalText | BluetoothSDK.xcframework/ios-arm64/BluetoothSDK.framework/Headers/BluetoothIOTTool.swift:47-51 | the decimal text of a number is a nonempty string of digits |
| IotTool.DecimalValueAppend | BluetoothSDK.xcframework/ios-arm64/BluetoothSDK.framework/Headers/BluetoothIOTTool.swift:48 | appending a digit multiplies the value by ten and adds the digit |
| IotTool.DecimalTextValue | BluetoothSDK.xcframework/ios-arm64/BluetoothSDK.framework/Headers/BluetoothIOTTool.swift:47-51 | the decimal text of n reads back as n |
| IotTool.HexOfDecimalTextOfByte | BluetoothSDK.xcframework/ios-arm64/BluetoothSDK.framework/Headers/BluetoothIOTTool.swift:47-59 | converting a byte's decimal text gives that byte's hex text |
| GattSession.SameStatusIgnoresFlag | BluetoothSDK.xcframework/ios-arm64/BluetoothSDK.framework/Headers/BluetoothGATT.swift:46-61 | two statuses are equal iff both are disconnected (any flags) or they are identical; equality is reflexive and symmetric |
| GattSession.SameStatus | BluetoothSDK.xcframework/ios-arm64/BluetoothSDK.framework/Headers/BluetoothGATT.swift:46-61 | the custom `==` of the connection status, characterised by `SameStatusIgnoresFlag` |
| GattSession.AutoReconnectTable | BluetoothSDK.xcframework/ios-arm64/BluetoothSDK.framework/Headers/BluetoothGATT.swift:333-346 | a disconnect asks for reconnecting iff it was by the system or by powering off |
| GattSession.AutoReconnectFor | BluetoothSDK.xcframework/ios-arm64/BluetoothSDK.framework/Headers/BluetoothGATT.swift:333-346 | the auto-reconnect decision per disconnect reason, tabulated by `AutoReconnectTable` |
| GattSession.Broadcast | BluetoothSDK.xcframework/ios-arm64/BluetoothSDK.framework/Headers/BluetoothGATT.swift:78 | one call per observer, in registration order, with the same event |
| GattSession.StatusNotifications | BluetoothSDK.xcframework/ios-arm64/BluetoothSDK.framework/Headers/BluetoothGATT.swift:74-83 | the observer calls of the `didSet`; when they happen is stated by `NotifiesOnlyOnChange` |
| GattSession.NotifiesOnlyOnChange | BluetoothSDK.xcframework/ios-arm64/BluetoothSDK.framework/Headers/BluetoothGATT.swift:74-83 | an assignment notifies nobody iff the status is unchanged under `==` (or there are no observers); a change reaches every observer |
| GattSession.RepeatedStatusNotifiesOnce | BluetoothSDK.xcframework/ios-arm64/BluetoothSDK.framework/Headers/BluetoothGATT.swift:74-83 | assigning the same status twice notifies once; changing only the disconnect flag notifies nobody |
| GattSession.Without | BluetoothSDK.xcframework/ios-arm64/BluetoothSDK.framework/Headers/BluetoothGATT.swift:199-201 | removal keeps exactly the other observers, never grows the list and changes nothing for an absent observer |
| GattSession.AddThenRemove | BluetoothSDK.xcframework/ios-arm64/BluetoothSDK.framework/Headers/BluetoothGATT.swift:192-201 | adding an observer and then removing it leaves the list as removing it alone would |
| GattSession.FindIgnoringCaseIsFirstWhere | BluetoothSDK.xcframework/ios-arm64/BluetoothSDK.framework/Headers/BluetoothGATT.swift:390 | the service search is `first(where:)` on upper-cased UUIDs |
| GattSession.FindIgnoringCase | BluetoothSDK.xcframework/ios-arm64/BluetoothSDK.framework/Headers/BluetoothGATT.swift:390 | the case-insensitive search over the reported services, equal to `first(where:)` by `FindIgnoringCaseIsFirstWhere` |
| GattSession.MatchReportedService | BluetoothSDK.xcframework/ios-arm64/BluetoothSDK.framework/Headers/BluetoothGATT.swift:387-390 | `servicesInPeripheral?.first(where:)`, nil when the peripheral reports no services; its meaning is `MatchReportedServiceSpec` |
| GattSession.MatchReportedServiceSpec | BluetoothSDK.xcframework/ios-arm64/BluetoothSDK.framework/Headers/BluetoothGATT.swift:387-391 | a declared service matches iff a reported service has its UUID up to case, and the match is such a reported service |
| GattSession.MatchReportedServiceIgnoresCase | BluetoothSDK.xcframework/ios-arm64/BluetoothSDK.framework/Headers/BluetoothGATT.swift:390 | declared UUIDs that differ only in case match the same reported service |
| GattSession.ServiceDiscoveryCallsExtend | BluetoothSDK.xcframework/ios-arm64/BluetoothSDK.framework/Headers/BluetoothGATT.swift:388-402 | handling one more declared service appends exactly its step |
| GattSession.CountInitialFailuresAppend | BluetoothSDK.xcframework/ios-arm64/BluetoothSDK.framework/Headers/BluetoothGATT.swift:399 | failures of a concatenation add up |
| GattSession.OneFailurePerMissingService | BluetoothSDK.xcframework/ios-arm64/BluetoothSDK.framework/Headers/BluetoothGATT.swift:386-403 | service discovery reports `gattInitialFailed` exactly once for each declared service with no reported counterpart |
| GattSession.CharacteristicScopedToService | BluetoothSDK.xcframework/ios-arm64/BluetoothSDK.framework/Headers/BluetoothGATT.swift:405-419 | characteristic discovery for a service leaves the handles of other services' characteristics unchanged |
| GattSession.UndeclaredUpdateIgnored | BluetoothSDK.xcframework/ios-arm64/BluetoothSDK.framework/Headers/BluetoothGATT.swift:443-445 | an update for an undeclared UUID makes no call |
| GattSession.ReadValueGoesToQueue | BluetoothSDK.xcframework/ios-arm64/BluetoothSDK.framework/Headers/BluetoothGATT.swift:447-467 | a value for a read-capable characteristic makes `didReadCharacteristic` with the platform error first; followed, when it also notifies and has a listener, by `gattNotifyFailed(message)` on an error or else the data to the combiner; otherwise nothing more |
| GattSession.ReadWithoutValueDeliversNothing | BluetoothSDK.xcframework/ios-arm64/BluetoothSDK.framework/Headers/BluetoothGATT.swift:447-448 | a read-capable characteristic updated without a value makes no call at all, so a read-and-notify one with an error delivers no `gattNotifyFailed` |
| GattSession.UnroutedKindIgnored | BluetoothSDK.xcframework/ios-arm64/BluetoothSDK.framework/Headers/BluetoothGATT.swift:447-454 | a declared characteristic with neither read nor notify makes no call |
| GattSession.NotifyErrorWinsOverData | BluetoothSDK.xcframework/ios-arm64/BluetoothSDK.framework/Headers/BluetoothGATT.swift:454-467 | for a notify-only characteristic: with a listener, an error is delivered as `gattNotifyFailed(message)` in place of the data, and data reaches the combiner only without an error; without a listener nothing is delivered |
| GattSession.ValueUpdateCalls | BluetoothSDK.xcframework/ios-arm64/BluetoothSDK.framework/Headers/BluetoothGATT.swift:442-468 | the calls made for a value update; every case is stated by `UndeclaredUpdateIgnored`, `ReadValueGoesToQueue`, `ReadWithoutValueDeliversNothing`, `NotifyErrorWinsOverData` and `UnroutedKindIgnored` |
| GattSession.ListenersAfter | BluetoothSDK.xcframework/ios-arm64/BluetoothSDK.framework/Headers/BluetoothGATT.swift:263-288 | the listener table after a set-notify result, characterised by `ListenersAfterSpec` |
| GattSession.ListenersAfterSpec | BluetoothSDK.xcframework/ios-arm64/BluetoothSDK.framework/Headers/BluetoothGATT.swift:263-288 | enabling installs a listener for the UUID, disabling removes it, a failure leaves the table unchanged; other UUIDs are untouched; applying a result twice equals applying it once |
| GattSession.BluetoothGatt.FromDiscovery | BluetoothSDK.xcframework/ios-arm64/BluetoothSDK.framework/Headers/BluetoothGATT.swift:121-132 | takes identifier, peripheral and name from the discovery, builds the profile, and starts disconnected, not initialized, with no observers and no listeners |
| GattSession.BluetoothGatt.FromDeviceId | BluetoothSDK.xcframework/ios-arm64/BluetoothSDK.framework/Headers/BluetoothGATT.swift:134-139 | the given identifier, no peripheral, the same initial state |
| GattSession.BluetoothGatt.FromPeripheral | BluetoothSDK.xcframework/ios-arm64/BluetoothSDK.framework/Headers/BluetoothGATT.swift:142-148 | the peripheral and its identifier, the same initial state |
| GattSession.BluetoothGatt.GetDeviceId | BluetoothSDK.xcframework/ios-arm64/BluetoothSDK.framework/Headers/BluetoothGATT.swift:172-174 | the stored identifier, else the peripheral's, and nil iff both are missing |
| GattSession.BluetoothGatt.IsReadyToInitiate | BluetoothSDK.xcframework/ios-arm64/BluetoothSDK.framework/Headers/BluetoothGATT.swift:93-109 | `ProfileResolved` of the session's profile (every declared service and characteristic has a handle) |
| GattSession.BluetoothGatt.NotifyObservers | BluetoothSDK.xcframework/ios-arm64/BluetoothSDK.framework/Headers/BluetoothGATT.swift:78 | appends one call per observer, in order |
| GattSession.BluetoothGatt.SetConnectStatus | BluetoothSDK.xcframework/ios-arm64/BluetoothSDK.framework/Headers/BluetoothGATT.swift:74-83 | stores the status and notifies only on a change under `==` |
| GattSession.BluetoothGatt.SetInitializeStatus | BluetoothSDK.xcframework/ios-arm64/BluetoothSDK.framework/Headers/BluetoothGATT.swift:111-115 | tells every observer the new state, changed or not, and stores it |
| GattSession.BluetoothGatt.AddObserver | BluetoothSDK.xcframework/ios-arm64/BluetoothSDK.framework/Headers/BluetoothGATT.swift:192-197 | appends the observer; it hears the current status iff `readBuffer` |
| GattSession.BluetoothGatt.RemoveObserver | BluetoothSDK.xcframework/ios-arm64/BluetoothSDK.framework/Headers/BluetoothGATT.swift:199-201 | drops the observer's registrations, keeping the others in order |
| GattSession.BluetoothGatt.WriteData | BluetoothSDK.xcframework/ios-arm64/BluetoothSDK.framework/Headers/BluetoothGATT.swift:203-224 | no peripheral: `gattDisconnected`, nothing queued; no write flag: `writeNotSupport`, nothing queued; otherwise pushes one write task with the chosen write type and the maximum length, then executes |
| GattSession.BluetoothGatt.ReadData | BluetoothSDK.xcframework/ios-arm64/BluetoothSDK.framework/Headers/BluetoothGATT.swift:226-234 | no peripheral: `gattDisconnected`, nothing queued; otherwise pushes a read task and executes |
| GattSession.BluetoothGatt.ReadRssi | BluetoothSDK.xcframework/ios-arm64/BluetoothSDK.framework/Headers/BluetoothGATT.swift:236-256 | queues an RSSI task iff the peripheral exists and is connected |
| GattSession.BluetoothGatt.OnReadRssiResult | BluetoothSDK.xcframework/ios-arm64/BluetoothSDK.framework/Headers/BluetoothGATT.swift:241-253 | observers hear a successful value; the next read is scheduled either way |
| GattSession.BluetoothGatt.ListenTo | BluetoothSDK.xcframework/ios-arm64/BluetoothSDK.framework/Headers/BluetoothGATT.swift:258-291 | no peripheral: `gattDisconnected`, nothing queued; otherwise pushes a set-notify task and executes |
| GattSession.BluetoothGatt.OnSetNotifyResult | BluetoothSDK.xcframework/ios-arm64/BluetoothSDK.framework/Headers/BluetoothGATT.swift:263-288 | the listener table becomes `ListenersAfter` of the result, and the completion is called once with the result |
| GattSession.BluetoothGatt.InitiateDevice | BluetoothSDK.xcframework/ios-arm64/BluetoothSDK.framework/Headers/BluetoothGATT.swift:300-304 | afterwards the device is initialized; `process(gattInitialized, nil)` is issued only by the first call |
| GattSession.BluetoothGatt.OnGattConnecting | BluetoothSDK.xcframework/ios-arm64/BluetoothSDK.framework/Headers/BluetoothGATT.swift:311-314 | status `connecting` (notifying on change), then the timeout monitor starts |
| GattSession.BluetoothGatt.OnGattConnected | BluetoothSDK.xcframework/ios-arm64/BluetoothSDK.framework/Headers/BluetoothGATT.swift:316-322 | cancels the monitor, then status `connected`, then discovery only when not yet initialized |
| GattSession.BluetoothGatt.OnGattDisconnecting | BluetoothSDK.xcframework/ios-arm64/BluetoothSDK.framework/Headers/BluetoothGATT.swift:324-326 | status `disconnecting`, notifying on change |
| GattSession.BluetoothGatt.OnGattDisconnected | BluetoothSDK.xcframework/ios-arm64/BluetoothSDK.framework/Headers/BluetoothGATT.swift:328-347 | cancels the monitor; status `disconnected(flag)` and `disconnectFlag = flag`; the session is reset; auto-reconnect follows the flag table |
| GattSession.BluetoothGatt.OnGattConnectionTimeout | BluetoothSDK.xcframework/ios-arm64/BluetoothSDK.framework/Headers/BluetoothGATT.swift:349-352 | tells the central manager once |
| GattSession.BluetoothGatt.DiscoverService | BluetoothSDK.xcframework/ios-arm64/BluetoothSDK.framework/Headers/BluetoothGATT.swift:355-372 | no peripheral: state `failed` and nothing queued; otherwise state `initializing` and one initialize task pushed and executed; observers hear the state |
| GattSession.BluetoothGatt.OnInitializeResult | BluetoothSDK.xcframework/ios-arm64/BluetoothSDK.framework/Headers/BluetoothGATT.swift:362-369 | the initialize task's result sets `initialized` or `failed`, and observers hear it |
| GattSession.BluetoothGatt.ResetDevice | BluetoothSDK.xcframework/ios-arm64/BluetoothSDK.framework/Headers/BluetoothGATT.swift:374-379 | every service and characteristic handle is cleared, `resetAfterDisconnected` is called once, the device is not initialized, and nothing else changes |
| GattSession.BluetoothGatt.DidDiscoverServices | BluetoothSDK.xcframework/ios-arm64/BluetoothSDK.framework/Headers/BluetoothGATT.swift:386-403 | each declared service takes its case-insensitive match, if any; the calls are characteristic discovery for a match and one failure for each miss, in declaration order |
| GattSession.BluetoothGatt.ResolveServices | BluetoothSDK.xcframework/ios-arm64/BluetoothSDK.framework/Headers/BluetoothGATT.swift:388-402 | the `forEach` over the declared services; same handles and calls as above |
| GattSession.BluetoothGatt.ResolveService | BluetoothSDK.xcframework/ios-arm64/BluetoothSDK.framework/Headers/BluetoothGATT.swift:389-401 | one declared service: takes its match and asks for its characteristics, or reports a failure |
| GattSession.BluetoothGatt.DidDiscoverCharacteristics | BluetoothSDK.xcframework/ios-arm64/BluetoothSDK.framework/Headers/BluetoothGATT.swift:405-432 | the matched service's declared characteristics take their case-insensitive matches; one failure if any of them is still unresolved; then `initiateDevice` iff everything is resolved |
| GattSession.BluetoothGatt.ResolveDiscoveredService | BluetoothSDK.xcframework/ios-arm64/BluetoothSDK.framework/Headers/BluetoothGATT.swift:406-427 | the first part of the same callback: handles and the failure report |
| GattSession.BluetoothGatt.ResolveCharacteristics | BluetoothSDK.xcframework/ios-arm64/BluetoothSDK.framework/Headers/BluetoothGATT.swift:412-419 | each declared characteristic of the service takes the reported one of its UUID up to case; others keep their handle |
| GattSession.BluetoothGatt.DidWriteValue | BluetoothSDK.xcframework/ios-arm64/BluetoothSDK.framework/Headers/BluetoothGATT.swift:434-436 | forwards `didWriteCharacteristic` with the error to the queue |
| GattSession.BluetoothGatt.DidUpdateNotificationState | BluetoothSDK.xcframework/ios-arm64/BluetoothSDK.framework/Headers/BluetoothGATT.swift:438-440 | forwards `didUpdateCharacteristicNotificationState` with the error to the queue |
| GattSession.BluetoothGatt.DidReadRssi | BluetoothSDK.xcframework/ios-arm64/BluetoothSDK.framework/Headers/BluetoothGATT.swift:470-473 | forwards `didReadRSSIValue` with the error to the queue |
| GattSession.BluetoothGatt.DidUpdateValue | BluetoothSDK.xcframework/ios-arm64/BluetoothSDK.framework/Headers/BluetoothGATT.swift:442-468 | makes exactly the calls of `ValueUpdateCalls`, whose cases the lemmas above state |
| GattSimulator.DisconnectFlagAfter | BluetoothSDK.xcframework/ios-x86_64-simulator/BluetoothSDK.framework/Headers/BluetoothGATT.swift:228-230 | the flag afterwards is by-user or by-system, and it is by-user iff it was before |
| GattSimulator.DisconnectFlagSettles | BluetoothSDK.xcframework/ios-x86_64-simulator/BluetoothSDK.framework/Headers/BluetoothGATT.swift:228-230 | a second disconnect leaves the flag as the first left it |
| GattSimulator.FindExactIsFirstWhere | BluetoothSDK.xcframework/ios-x86_64-simulator/BluetoothSDK.framework/Headers/BluetoothGATT.swift:269 | the service search is `first(where:)` with exact UUID equality |
| GattSimulator.FindExact | BluetoothSDK.xcframework/ios-x86_64-simulator/BluetoothSDK.framework/Headers/BluetoothGATT.swift:269 | the exact-UUID search over the reported services, equal to `first(where:)` by `FindExactIsFirstWhere` |
| GattSimulator.MatchReportedService | BluetoothSDK.xcframework/ios-x86_64-simulator/BluetoothSDK.framework/Headers/BluetoothGATT.swift:267-269 | `servicesInPeripheral?.first(where:)` with exact equality; its meaning is `MatchedServiceIsReported` and `ExactMatchImpliesCaseInsensitiveMatch` |
| GattSimulator.ExactMatchImpliesCaseInsensitiveMatch | BluetoothSDK.xcframework/ios-x86_64-simulator/BluetoothSDK.framework/Headers/BluetoothGATT.swift:269 | a service the simulator build matches is also matched by the device build |
| GattSimulator.MatchedServiceIsReported | BluetoothSDK.xcframework/ios-x86_64-simulator/BluetoothSDK.framework/Headers/BluetoothGATT.swift:269 | a match is a reported service with exactly the declared UUID |
| GattSimulator.CharacteristicUuidsOf | BluetoothSDK.xcframework/ios-x86_64-simulator/BluetoothSDK.framework/Headers/BluetoothGATT.swift:271-272 | lists exactly the declared characteristic UUIDs of the service, each from a characteristic of that service |
| GattSimulator.ServiceDiscoveryCallsReported | BluetoothSDK.xcframework/ios-x86_64-simulator/BluetoothSDK.framework/Headers/BluetoothGATT.swift:266-276 | at most one call per declared service, each a characteristic discovery on a reported service; none when nothing is reported (a missing service reports no failure) |
| GattSimulator.ServiceDiscoveryCallsExtend | BluetoothSDK.xcframework/ios-x86_64-simulator/BluetoothSDK.framework/Headers/BluetoothGATT.swift:268-275 | handling one more declared service appends exactly its step |
| GattSimulator.ResolvedHandleSpec | BluetoothSDK.xcframework/ios-x86_64-simulator/BluetoothSDK.framework/Headers/BluetoothGATT.swift:278-287 | a handle that changes takes a reported characteristic of the same service with exactly its UUID |
| GattSimulator.NotifyDataWinsOverError | BluetoothSDK.xcframework/ios-x86_64-simulator/BluetoothSDK.framework/Headers/BluetoothGATT.swift:312-321 | for a notify-only characteristic: with a listener, present data is delivered even with an error, `gattNotifyFailed` only on an error without data, nothing with neither; without a listener nothing is delivered |
| GattSimulator.UndeclaredUpdateIgnored | BluetoothSDK.xcframework/ios-x86_64-simulator/BluetoothSDK.framework/Headers/BluetoothGATT.swift:303-305 | an update for an undeclared UUID makes no call |
| GattSimulator.ReadValueGoesToQueue | BluetoothSDK.xcframework/ios-x86_64-simulator/BluetoothSDK.framework/Headers/BluetoothGATT.swift:307-321 | a value for a read-capable characteristic makes `didReadCharacteristic` with the platform error first; followed, when it also notifies and has a listener, by the data whatever the error; otherwise nothing more |
| GattSimulator.ReadWithoutValueDeliversNothing | BluetoothSDK.xcframework/ios-x86_64-simulator/BluetoothSDK.framework/Headers/BluetoothGATT.swift:307-308 | a read-capable characteristic updated without a value makes no call, so a read-and-notify one with an error reports no `gattNotifyFailed` |
| GattSimulator.UnroutedKindIgnored | BluetoothSDK.xcframework/ios-x86_64-simulator/BluetoothSDK.framework/Headers/BluetoothGATT.swift:307-312 | a declared characteristic with neither read nor notify makes no call |
| GattSimulator.ValueUpdateCalls | BluetoothSDK.xcframework/ios-x86_64-simulator/BluetoothSDK.framework/Headers/BluetoothGATT.swift:302-322 | the calls made for a value update in the simulator build; every case is stated by the five lemmas above |
| GattSimulator.BluetoothGatt.FromDiscovery | BluetoothSDK.xcframework/ios-x86_64-simulator/BluetoothSDK.framework/Headers/BluetoothGATT.swift:74-85 | identifier, peripheral and name from the discovery, the profile, the initial state |
| GattSimulator.BluetoothGatt.FromDeviceId | BluetoothSDK.xcframework/ios-x86_64-simulator/BluetoothSDK.framework/Headers/BluetoothGATT.swift:87-92 | the given identifier, no peripheral, the initial state |
| GattSimulator.BluetoothGatt.ConnectStatus | BluetoothSDK.xcframework/ios-x86_64-simulator/BluetoothSDK.framework/Headers/BluetoothGATT.swift:46-48 | reading the status gives the peripheral's state, disconnected without one |
| GattSimulator.BluetoothGatt.IsReadyToInitiate | BluetoothSDK.xcframework/ios-x86_64-simulator/BluetoothSDK.framework/Headers/BluetoothGATT.swift:59-63 | the same `ProfileResolved` of the profile as the device build |
| GattSimulator.BluetoothGatt.NotifyObservers | BluetoothSDK.xcframework/ios-x86_64-simulator/BluetoothSDK.framework/Headers/BluetoothGATT.swift:43 | appends one call per observer, in order |
| GattSimulator.BluetoothGatt.AnnounceConnectStatus | BluetoothSDK.xcframework/ios-x86_64-simulator/BluetoothSDK.framework/Headers/BluetoothGATT.swift:42-44 | every assignment tells every observer, with no change check |
| GattSimulator.BluetoothGatt.SetInitializeStatus | BluetoothSDK.xcframework/ios-x86_64-simulator/BluetoothSDK.framework/Headers/BluetoothGATT.swift:65-69 | tells every observer and stores the state |
| GattSimulator.BluetoothGatt.AddObserver | BluetoothSDK.xcframework/ios-x86_64-simulator/BluetoothSDK.framework/Headers/BluetoothGATT.swift:122-125 | appends the observer, which always hears the current status |
| GattSimulator.BluetoothGatt.RemoveObserver | BluetoothSDK.xcframework/ios-x86_64-simulator/BluetoothSDK.framework/Headers/BluetoothGATT.swift:127-129 | drops the observer's registrations |
| GattSimulator.BluetoothGatt.WriteData | BluetoothSDK.xcframework/ios-x86_64-simulator/BluetoothSDK.framework/Headers/BluetoothGATT.swift:131-150 | the same guards and write-type choice as the device build; nothing queued on failure |
| GattSimulator.BluetoothGatt.ReadData | BluetoothSDK.xcframework/ios-x86_64-simulator/BluetoothSDK.framework/Headers/BluetoothGATT.swift:152-160 | no peripheral: `gattDisconnected`; otherwise a read task |
| GattSimulator.BluetoothGatt.ListenTo | BluetoothSDK.xcframework/ios-x86_64-simulator/BluetoothSDK.framework/Headers/BluetoothGATT.swift:162-195 | no peripheral: `gattDisconnected`; otherwise a set-notify task |
| GattSimulator.BluetoothGatt.OnSetNotifyResult | BluetoothSDK.xcframework/ios-x86_64-simulator/BluetoothSDK.framework/Headers/BluetoothGATT.swift:167-192 | the listener table as in the device build; the completion gets the result |
| GattSimulator.BluetoothGatt.InitiateDevice | BluetoothSDK.xcframework/ios-x86_64-simulator/BluetoothSDK.framework/Headers/BluetoothGATT.swift:200-204 | `process(didInitialized, nil)` only on the first call; afterwards initialized |
| GattSimulator.BluetoothGatt.OnGattConnecting | BluetoothSDK.xcframework/ios-x86_64-simulator/BluetoothSDK.framework/Headers/BluetoothGATT.swift:211-213 | announces `connecting` |
| GattSimulator.BluetoothGatt.OnGattConnected | BluetoothSDK.xcframework/ios-x86_64-simulator/BluetoothSDK.framework/Headers/BluetoothGATT.swift:215-220 | discovery first (only when not initialized), then announces `connected` |
| GattSimulator.BluetoothGatt.OnGattDisconnecting | BluetoothSDK.xcframework/ios-x86_64-simulator/BluetoothSDK.framework/Headers/BluetoothGATT.swift:222-224 | announces `disconnecting` |
| GattSimulator.BluetoothGatt.OnGattDisconnected | BluetoothSDK.xcframework/ios-x86_64-simulator/BluetoothSDK.framework/Headers/BluetoothGATT.swift:226-232 | announces `disconnected`, keeps by-user and otherwise sets by-system, then resets the session |
| GattSimulator.BluetoothGatt.DiscoverService | BluetoothSDK.xcframework/ios-x86_64-simulator/BluetoothSDK.framework/Headers/BluetoothGATT.swift:235-252 | no peripheral: `failed`, nothing queued; otherwise `initializing` and one initialize task |
| GattSimulator.BluetoothGatt.OnInitializeResult | BluetoothSDK.xcframework/ios-x86_64-simulator/BluetoothSDK.framework/Headers/BluetoothGATT.swift:242-249 | sets `initialized` or `failed`, observers hear it |
| GattSimulator.BluetoothGatt.ResetDevice | BluetoothSDK.xcframework/ios-x86_64-simulator/BluetoothSDK.framework/Headers/BluetoothGATT.swift:254-259 | clears every handle, calls `resetAfterDisconnected` once, not initialized, nothing else changes |
| GattSimulator.BluetoothGatt.DidDiscoverServices | BluetoothSDK.xcframework/ios-x86_64-simulator/BluetoothSDK.framework/Headers/BluetoothGATT.swift:266-276 | each declared service takes its exact match, if any; a match asks for the declared characteristic UUIDs of the service; a miss makes no call |
| GattSimulator.BluetoothGatt.ResolveServices | BluetoothSDK.xcframework/ios-x86_64-simulator/BluetoothSDK.framework/Headers/BluetoothGATT.swift:268-275 | the `forEach` over the declared services; same handles and calls |
| GattSimulator.BluetoothGatt.ResolveService | BluetoothSDK.xcframework/ios-x86_64-simulator/BluetoothSDK.framework/Headers/BluetoothGATT.swift:269-274 | one declared service: takes its exact match and asks for its characteristics |
| GattSimulator.BluetoothGatt.ResolveCharacteristics | BluetoothSDK.xcframework/ios-x86_64-simulator/BluetoothSDK.framework/Headers/BluetoothGATT.swift:281-286 | each declared characteristic of the service takes the reported one with exactly its UUID |
| GattSimulator.BluetoothGatt.DidDiscoverCharacteristics | BluetoothSDK.xcframework/ios-x86_64-simulator/BluetoothSDK.framework/Headers/BluetoothGATT.swift:278-292 | handles as above, no failure for a missing one, then `initiateDevice` iff everything is resolved |
| GattSimulator.BluetoothGatt.DidWriteValue | BluetoothSDK.xcframework/ios-x86_64-simulator/BluetoothSDK.framework/Headers/BluetoothGATT.swift:294-296 | forwards `didWriteCharacteristic` with the error |
| GattSimulator.BluetoothGatt.DidUpdateNotificationState | BluetoothSDK.xcframework/ios-x86_64-simulator/BluetoothSDK.framework/Headers/BluetoothGATT.swift:298-300 | forwards `didUpdateCharacteristicNotificationState` with the error |
| GattSimulator.BluetoothGatt.DidUpdateValue | BluetoothSDK.xcframework/ios-x86_64-simulator/BluetoothSDK.framework/Headers/BluetoothGATT.swift:302-322 | makes exactly the calls of the simulator's `ValueUpdateCalls` (data wins over an error) |

## Left out

- Logging: every `BTLog` and `BTLogRecord` call, including the lists of missing services and characteristics that `isReadyToInitiate` logs. It has no effect on state.
- `descriptionInternal` of the connection status and `advertisementData` / `getAdvertisementData`. These are plain text and a dictionary passed through, used only for logging and display.
- `getDeviceName`, `getDeviceInitialized`, `getConnectStatus` and `getPeripheral` are plain reads of the fields `localName`, `deviceInitialized`, `connectStatus` and `peripheral`. The simulator's `getDeviceId` returns the field `deviceId` itself.
- The `fatalError` checks: the abstract-class check in `init(with discovery:)`, and the mandatory overrides `setupGattProfile`, `maximumWritePayloadLength` and `getDeviceModel`. The declared characteristics and the maximum write length are constructor parameters.
- The task queue, the timeout monitor, the notify data combiner and the central manager are collaborators whose code is not part of this model. Calls to them are recorded in the ghost trace; their internals (ordering, timeouts, chunk reassembly) are not modelled. The completion callbacks the tasks receive are modelled by `OnReadRssiResult`, `OnSetNotifyResult` and `OnInitializeResult`, which are not called by any modelled operation.
- The listener closure of `listenTo` is reduced to the identity of the callback it feeds (`Listener(sink)`). What the combiner does with a fragment is not modelled.
- The RSSI re-read after `interval` seconds on a global dispatch queue is recorded as `ScheduleRssiRead(interval)`; the delay and the recursion are not modelled.
- Observers held weakly by `NSPointerArray`: the model keeps a plain sequence of observer ids, so an observer is never dropped by deallocation. `removeObject` is modelled as removing every registration of the observer.
- `peripheral.delegate = self` in `discoverService`: it only wires the callbacks, which are modelled as the `Did…` methods.
- `hash` of `BluetoothGATT` (`deviceId?.hashValue ?? 0`): hashing of session objects is a property of the Swift runtime, not of the session.
- The device build computes the declared characteristic UUIDs of a matched service but passes `nil` to `discoverCharacteristics`. The model records the call without UUIDs; only the simulator build passes them.
- `CBUUID` is modelled by its `uuidString`, and `CBUUID` equality by string equality. `uppercased()` on UUID strings is modelled as ASCII upper-casing.
- GattProfile.NewProfile: `Set(services).map { $0 }` has an unspecified order. The model keeps the first occurrence of each UUID, in declaration order; the contract does not depend on the order.
- `Decoder.decode<T>` (an unsafe raw memory load), `Helper.Decimal<T>` (Foundation `Scanner`) and `DecodeDataToAsciiString` (string encoding) depend on memory layout, the Foundation scanner or text encodings.
- GattSession.BluetoothGatt.DidDiscoverServices: the trace of the loop is appended to `calls` after the loop rather than call by call. The calls and their order are the same.
- GattCharacteristic.Characteristic: `uuid` is a `var` in the source (`A/BluetoothGATTCharacteristic.swift:26`). No code in the core assigns it, so the model makes it constant.
- GattSimulator.ValueUpdateCalls: the simulator's `.gattNotifyFailed` without a message (`S/BluetoothGATT.swift:319`) is modelled as `GattNotifyFailed(None)`. The error type of the device build carries an optional message, and the simulator's case has none.
- GattCharacteristic.CharacteristicType: `init(rawValue:)` is the datatype constructor, which stores the value unchanged by construction. The `Int` raw value is modelled as its 64-bit pattern.
