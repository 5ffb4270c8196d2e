# aiothingy in Dafny

A model of the core of `aiothingy`, an asyncio client for the Nordic Thingy:52
Bluetooth sensor board. Every characteristic of the board is a `Characteristic`
subclass with a GATT UUID, an event name and a `decode`. Of the modelled
characteristics only the LED also has an `encode`; `Name.encode` is left out.
`Characteristic` reads and writes through the board's BLE client and keeps an
insertion-ordered dict of subscribers that `__notify` fans each notification
out to.

The project has six modules:

- `Wrappers` (`wrappers.dfy`): `Option` and `Result`.
- `Py` (`py.dfy`): the Python operations the code relies on. It covers list
  indexing (including negative indices), `list.index`, slicing and dict
  subscripts, each with the exception it raises.
- `Struct` (`struct.dfy`): `struct.pack` and `struct.unpack` for the
  little-endian formats the code uses (`B b H h I i`). Both are generic over a
  format. Round trips are proved in both directions, and a lemma locates
  each field at its byte offset.
- `Sensors` (`sensors.dfy`): the twelve integer-field decoders.
  - Each one is exact about the payload length it accepts.
  - Humidity, Button and Orientation state the decoded value in their own
    `ensures`. Each of the other nine has a lemma that gives every field as an
    explicit little-endian or two's-complement formula over the payload bytes.
- `Led` (`led.dfy`): `LED.encode` and `LED.decode` over the colour table.
  - `encode` takes the Python dict as a `map<string, Value>`.
  - `decode` returns `Result<Option<LedState>>`.
  - Round trips are proved both ways, along with the byte layout of each mode
    and the colour name and number equivalence.
- `Channels` (`channels.dfy`): the characteristic kinds, decode dispatch and
  the transport.
  - The transport is a `Thingy52` class that logs the calls made on the BLE
    client.
  - The `Characteristic` class holds the subscriber table.
  - `Subscribe` is proved against the dict-assignment function `Upsert`.
  - `Notify` is proved against the fan-out function `FanOut`, whose ordering
    and fault behaviour are lemmas.

## Model

| member | source | states |
|---|---|---|
| Py.Index | aiothingy/__init__.py:168 | `s[i]`: succeeds iff `-len(s) <= i < len(s)`, a negative index counts from the end, IndexError otherwise |
| Py.ListIndex | aiothingy/__init__.py:146 | `list.index`: succeeds iff the item is present, returns its first position, ValueError otherwise |
| Py.Prefix | aiothingy/__init__.py:162 | `data[0:n]` keeps the first `min(n, len(data))` elements unchanged |
| Py.Lookup | aiothingy/__init__.py:139-141 | `d[key]`: succeeds iff the key is present, with its value; KeyError otherwise |
| Struct.LittleEndianOfTo | aiothingy/__init__.py:94 | writing an unsigned value in n little-endian bytes and reading it back gives the value |
| Struct.ToLittleEndianOf | aiothingy/__init__.py:94 | reading n little-endian bytes and writing the value back gives the same bytes |
| Struct.ReadField | aiothingy/__init__.py:84 | unpacking one field gives a value in that field's range |
| Struct.WriteField | aiothingy/__init__.py:149 | packing one in-range value gives exactly the field's width in bytes |
| Struct.ReadWriteField | aiothingy/__init__.py:149 | every in-range value of a `B b H h I i` field survives pack then unpack |
| Struct.WriteReadField | aiothingy/__init__.py:162 | every byte string of a field's width survives unpack then pack |
| Struct.Unpack | aiothingy/__init__.py:84 | `struct.unpack` succeeds iff the payload is exactly `calcsize(fmt)` bytes; struct.error otherwise; every value lies in its field's range |
| Struct.Pack | aiothingy/__init__.py:142 | `struct.pack` succeeds iff every value fits its field; struct.error otherwise; the result is `calcsize(fmt)` bytes |
| Struct.UnpackPack | aiothingy/__init__.py:149 | unpacking packed values gives the values back |
| Struct.PackUnpack | aiothingy/__init__.py:165 | packing unpacked fields gives the payload back |
| Struct.UnpackAt | aiothingy/__init__.py:218 | field i is read from exactly its own bytes, at the sum of the widths before it |
| Struct.ReadFieldValue | aiothingy/__init__.py:84 | each field value as an explicit little-endian formula, minus 2^(8w) for a signed field whose top bit is set |
| Sensors.DecodeTemperature | aiothingy/__init__.py:83-85 | `'bB'`: succeeds iff 2 bytes, struct.error otherwise; integer part in -128..127, hundredths in 0..255 |
| Sensors.DecodePressure | aiothingy/__init__.py:93-95 | `'<IB'`: succeeds iff 5 bytes; integer part unsigned 32-bit, hundredths one byte |
| Sensors.DecodeHumidity | aiothingy/__init__.py:103-105 | `'B'`: succeeds iff 1 byte and returns that byte unchanged |
| Sensors.DecodeAirQuality | aiothingy/__init__.py:113-115 | `'<HH'`: succeeds iff 4 bytes; co2 and voc unsigned 16-bit |
| Sensors.DecodeColor | aiothingy/__init__.py:123-125 | `'<HHHH'`: succeeds iff 8 bytes, struct.error otherwise |
| Sensors.DecodeButton | aiothingy/__init__.py:207-209 | `'B'`: succeeds iff 1 byte; pressed iff the byte is nonzero |
| Sensors.DecodeMotionConfig | aiothingy/__init__.py:217-225 | `'<HHHHB'`: succeeds iff 9 bytes; wake-on-motion is one byte |
| Sensors.DecodeOrientation | aiothingy/__init__.py:233-236 | succeeds iff 1 byte below 4, giving left/up/right/down by position; struct.error for a wrong length, IndexError for a byte of 4 or more |
| Sensors.DecodeStepCounter | aiothingy/__init__.py:244-249 | `'<II'`: succeeds iff 8 bytes; count and time unsigned 32-bit |
| Sensors.DecodeRaw | aiothingy/__init__.py:257-258 | `'<hhhhhhhhh'`: succeeds iff 18 bytes, struct.error otherwise |
| Sensors.DecodeEuler | aiothingy/__init__.py:283-284 | `'<iii'`: succeeds iff 12 bytes, struct.error otherwise |
| Sensors.DecodeHeading | aiothingy/__init__.py:297-298 | `'<i'`: succeeds iff 4 bytes; value signed 32-bit |
| Sensors.TemperatureFields | aiothingy/__init__.py:84 | the integer part is byte 0 as two's complement and the hundredths are byte 1 |
| Sensors.PressureFields | aiothingy/__init__.py:94 | the integer part is bytes 0-3 little-endian unsigned and the hundredths are byte 4 |
| Sensors.AirQualityFields | aiothingy/__init__.py:114 | co2 = b0 + 256·b1, voc = b2 + 256·b3 |
| Sensors.ColorFields | aiothingy/__init__.py:124 | r, g, b, c are the four consecutive unsigned 16-bit little-endian words |
| Sensors.MotionConfigFields | aiothingy/__init__.py:218-225 | four unsigned 16-bit words at offsets 0, 2, 4, 6, then byte 8 |
| Sensors.StepCounterFields | aiothingy/__init__.py:245-249 | count and time are bytes 0-3 and 4-7 as unsigned 32-bit little-endian |
| Sensors.RawFieldAt | aiothingy/__init__.py:258 | value i of the raw payload is bytes 2i and 2i+1 as a signed 16-bit little-endian word |
| Sensors.RawFields | aiothingy/__init__.py:257-275 | accelerometer, gyroscope and compass are values 0-2, 3-5 and 6-8 |
| Sensors.EulerFields | aiothingy/__init__.py:284-288 | roll, pitch, yaw are the three signed 32-bit little-endian words |
| Sensors.HeadingFields | aiothingy/__init__.py:298-299 | the heading is the payload as a signed 32-bit little-endian word |
| Sensors.TemperatureExample | aiothingy/__init__.py:83-85 | bytes (22, 50) decode to 22 and 50 hundredths, 22.5 as a real |
| Sensors.PressureExample | aiothingy/__init__.py:93-95 | bytes [0xF5, 0x03, 0, 0, 25] decode to 1013 and 25 hundredths, 1013.25 as a real |
| Sensors.RawExample | aiothingy/__init__.py:257-275 | the payload of words 1024, 0, -1024, 256, 0, 0, 16, 0, -16 decodes to those vectors, which scale to (1, 0, -1) g, (1, 0, 0) deg/s and (1, 0, -1) uT |
| Sensors.HeadingExample | aiothingy/__init__.py:297-299 | bytes [0, 0, 0x5A, 0] decode to 90 · 65536, which is 90 degrees in 16.16 fixed point |
| Led.ColorArgument | aiothingy/__init__.py:144-146 | an int colour passes through unchanged; a name succeeds iff it is in the table and becomes its 1-based position; ValueError otherwise |
| Led.EncodeConstant | aiothingy/__init__.py:138-142 | for any dict: KeyError if 'r', 'g' or 'b' is missing; [1, r, g, b] if all three are ints in 0..255; struct.error otherwise |
| Led.EncodeBreathe | aiothingy/__init__.py:143-149 | for any dict, in the order the code looks: KeyError without 'color'; ValueError for a colour name not in the table; KeyError without 'intensity' or 'delay'; [2, colour, intensity, delay low, delay high] if colour and intensity are ints in 0..255 and the delay an int in 0..65535; struct.error otherwise |
| Led.EncodeOneshot | aiothingy/__init__.py:150-155 | for any dict: KeyError without 'color'; ValueError for an unknown colour name; KeyError without 'intensity'; [3, colour, intensity] if both are ints in 0..255; struct.error otherwise |
| Led.Encode | aiothingy/__init__.py:134-156 | KeyError without 'mode'; ValueError for a mode outside off/constant/breathe/oneshot; on success the tag byte names the mode and the length is that mode's prefix length |
| Led.Dispatch | aiothingy/__init__.py:136-155 | 'off' encodes to [0]; each other mode's result is its branch's (`EncodeConstant`, `EncodeBreathe`, `EncodeOneshot`) |
| Led.PackOff | aiothingy/__init__.py:137 | `struct.pack('<B', 0)` is [0] |
| Led.Ints | aiothingy/__init__.py:142 | the values struct.pack receives: succeeds iff every value is an int, keeping them in order; struct.error otherwise |
| Led.PackValues | aiothingy/__init__.py:149 | `struct.pack` over dict values: struct.error on failure; `calcsize(fmt)` bytes on success, the leading 'B' field first |
| Led.PackConstantValues | aiothingy/__init__.py:142 | `struct.pack('<BBBB', 1, r, g, b)` is [1, r, g, b] when all three are ints in 0..255, struct.error otherwise |
| Led.PackBreatheValues | aiothingy/__init__.py:149 | `struct.pack('<BBBH', 2, c, i, d)` is the breathe layout when c, i are ints in 0..255 and d in 0..65535, struct.error otherwise |
| Led.PackOneshotValues | aiothingy/__init__.py:155 | `struct.pack('<BBB', 3, c, i)` is [3, c, i] when both are ints in 0..255, struct.error otherwise |
| Led.AsDict | aiothingy/__init__.py:160-177 | the dict the decoder returns: its 'mode' is one of the four and names the state's variant; breathe and oneshot carry the colour name under 'color' |
| Led.ColorName | aiothingy/__init__.py:168 | `colors[b - 1]`: succeeds iff b ≤ 7; byte 0 wraps to the last entry; 1..7 give the b-th name |
| Led.Decode | aiothingy/__init__.py:158-178 | IndexError on an empty payload; None for a tag above 3; succeeds iff the tag's prefix is present and a colour byte is at most 7; every decoded state can be re-encoded |
| Led.ColorNumber | aiothingy/__init__.py:146 | `colors.index(name) + 1` lies in 1..7 and names that colour |
| Led.DelayBytes | aiothingy/__init__.py:149 | the delay's low and high bytes recombine to the delay |
| Led.DelayOfBytes | aiothingy/__init__.py:165 | two bytes recombined and split again give the same bytes |
| Led.ConstantFields | aiothingy/__init__.py:162-163 | `struct.unpack('<BBBB')` of four bytes is those four bytes |
| Led.BreatheFields | aiothingy/__init__.py:165-170 | `struct.unpack('<BBBH')` of five bytes is bytes 0-2 and the little-endian delay from bytes 3-4 |
| Led.OneshotFields | aiothingy/__init__.py:173-177 | `struct.unpack('<BBB')` of three bytes is those three bytes |
| Led.PackConstant | aiothingy/__init__.py:142 | `struct.pack('<BBBB', 1, r, g, b)` is [1, r, g, b] |
| Led.PackBreathe | aiothingy/__init__.py:149 | `struct.pack('<BBBH', 2, n, i, d)` is [2, n, i, d & 0xFF, d >> 8] |
| Led.PackOneshot | aiothingy/__init__.py:155 | `struct.pack('<BBB', 3, n, i)` is [3, n, i] |
| Led.DecodeConstantBytes | aiothingy/__init__.py:161-163 | any payload with tag 1 and at least 4 bytes decodes to bytes 1-3 as r, g, b |
| Led.DecodeBreatheBytes | aiothingy/__init__.py:164-171 | a tag-2 payload of at least 5 bytes with colour byte ≤ 7 decodes to `colors[b-1]`, byte 2 and the little-endian delay |
| Led.DecodeOneshotBytes | aiothingy/__init__.py:172-178 | a tag-3 payload of at least 3 bytes with colour byte ≤ 7 decodes to `colors[b-1]` and byte 2 |
| Led.EncodeLayout | aiothingy/__init__.py:136-155 | off is [0], constant is [1,r,g,b], breathe is [2,idx,intensity,delay&0xFF,delay>>8], oneshot is [3,idx,intensity] |
| Led.ColorArgumentOfName | aiothingy/__init__.py:144-146 | a colour name from the table becomes its 1-based position |
| Led.EncodeConstantLayout | aiothingy/__init__.py:138-142 | the dict for a constant state encodes to [1, r, g, b] |
| Led.EncodeBreatheLayout | aiothingy/__init__.py:143-149 | the dict for a breathe state encodes to [2, colour index, intensity, delay low, delay high] |
| Led.EncodeOneshotLayout | aiothingy/__init__.py:150-155 | the dict for a oneshot state encodes to [3, colour index, intensity] |
| Led.DecodeLayout | aiothingy/__init__.py:158-178 | each of those layouts decodes to the state it was built from |
| Led.DecodeBreatheLayout | aiothingy/__init__.py:164-171 | the breathe layout decodes to the breathe state it came from |
| Led.DecodeOneshotLayout | aiothingy/__init__.py:172-178 | the oneshot layout decodes to the oneshot state it came from |
| Led.DecodeBreatheNumber | aiothingy/__init__.py:164-171 | the breathe layout with colour index n in 1..7 decodes to the n-th colour name |
| Led.RoundTrip | aiothingy/__init__.py:134-178 | every state with byte-range fields and a colour name from the table round-trips through `encode` then `decode` |
| Led.DecodedLayout | aiothingy/__init__.py:158-178 | a payload of exactly its tag's length with colour byte in 1..7 is the layout of what it decodes to |
| Led.BreatheOf | aiothingy/__init__.py:166-171 | the breathe dict a 5-byte payload with colour byte 1..7 stands for is a writable state |
| Led.OneshotOf | aiothingy/__init__.py:174-178 | the oneshot dict a 3-byte payload with colour byte 1..7 stands for is a writable state |
| Led.DecodedBreathe | aiothingy/__init__.py:164-171 | such a breathe payload decodes to `BreatheOf` it |
| Led.BreatheOfLayout | aiothingy/__init__.py:143-149 | the breathe layout of `BreatheOf(data)` is `data` again |
| Led.DecodedBreatheLayout | aiothingy/__init__.py:164-171 | a 5-byte breathe payload with colour byte 1..7 decodes to a state whose layout is that payload |
| Led.DecodedOneshotLayout | aiothingy/__init__.py:172-178 | a 3-byte oneshot payload with colour byte 1..7 decodes to a state whose layout is that payload |
| Led.BytesRoundTrip | aiothingy/__init__.py:134-178 | such a payload round-trips through `decode` then `encode` byte for byte |
| Led.ColorNumberOfName | aiothingy/__init__.py:132 | the table has no repeated name, so the n-th name's index is n |
| Led.ColorsDistinct | aiothingy/__init__.py:132 | no colour name appears twice in the table |
| Led.NameAndNumberAgree | aiothingy/__init__.py:143-155 | replacing a colour name by its 1-based index never changes what `encode` returns |
| Led.ConstantIgnoresColor | aiothingy/__init__.py:138-142 | the constant branch never reads 'color' |
| Led.BreatheSameArguments | aiothingy/__init__.py:143-149 | two breathe dicts whose colours map to the same argument encode alike |
| Led.OneshotSameArguments | aiothingy/__init__.py:150-155 | two oneshot dicts whose colours map to the same argument encode alike |
| Led.DecodeIgnoresTrailing | aiothingy/__init__.py:158-178 | bytes after the 1/4/5/3-byte prefix of tags 0/1/2/3 do not affect `decode` |
| Led.ColorByteZeroIsWhite | aiothingy/__init__.py:164-178 | colour byte 0 decodes to 'white' in both breathe and oneshot |
| Led.UncheckedColorNumber | aiothingy/__init__.py:150-178 | an int colour of 9 is encoded without complaint, but its bytes fail to decode with IndexError |
| Led.BreatheBlueExample | aiothingy/__init__.py:143-149 | breathe/blue/80/500 is sent as [2, 4, 80, 0xF4, 0x01] |
| Led.BreatheBlueDecodes | aiothingy/__init__.py:164-171 | [2, 4, 80, 0xF4, 0x01] decodes to breathe/blue/80/500 |
| Led.ConstantExample | aiothingy/__init__.py:138-163 | constant 255/0/128 is sent as [1, 255, 0, 128] and decodes back to itself |
| Channels.Name | aiothingy/__init__.py:78-80 | the `name` class attribute of each characteristic: a nonempty lower-case identifier (`temperature`, `air_quality`, ...) |
| Channels.NamesDistinct | aiothingy/__init__.py:80 | no two characteristics report the same event `type` |
| Channels.ShortId | aiothingy/__init__.py:81 | the four hex digits that tell the characteristics' UUIDs apart |
| Channels.Uuid | aiothingy/__init__.py:81 | the `uuid` class attribute: 36 characters, `ef68` + the short id + the vendor base `-9b35-4933-9b10-52ffa9740042` |
| Channels.UuidsDistinct | aiothingy/__init__.py:81 | no two characteristics share a UUID |
| Channels.Decode | aiothingy/__init__.py:45 | `self.decode(data)` dispatched on the class; the only errors it raises are struct.error and IndexError |
| Channels.DecodeAccepts | aiothingy/__init__.py:43-45 | per characteristic, which payloads decode: the exact length (and for orientation a byte below 4), the LED's own rule; struct.error for any other length |
| Channels.Encode | aiothingy/__init__.py:47-49 | of the modelled characteristics only the LED has `encode` (`Name.encode`, :71-72, is left out); every other one raises AttributeError |
| Channels.Thingy52.constructor | aiothingy/__init__.py:7 | the fresh BLE client has made no calls (an empty call log); nothing else of `__init__` |
| Channels.Thingy52.Connect | aiothingy/__init__.py:24-25 | one `connect` call is logged |
| Channels.Thingy52.Disconnect | aiothingy/__init__.py:27-28 | one `disconnect` call is logged |
| Channels.Thingy52.Read | aiothingy/__init__.py:30-31 | one `read_gatt_char(uuid)` is logged and its reply returned |
| Channels.Thingy52.Write | aiothingy/__init__.py:33-34 | one `write_gatt_char(uuid, data, response)` is logged |
| Channels.Thingy52.StartNotify | aiothingy/__init__.py:53 | one `start_notify(uuid)` is logged |
| Channels.Characteristic.constructor | aiothingy/__init__.py:39-41 | a new characteristic has no subscribers |
| Channels.Characteristic.Read | aiothingy/__init__.py:43-45 | exactly one read of its own UUID, and the result is that reply decoded |
| Channels.Characteristic.Write | aiothingy/__init__.py:47-49 | an encoding error is raised with nothing sent; otherwise exactly one write of the encoding to its own UUID with response=True |
| Channels.Position | aiothingy/__init__.py:54 | finds the callback's slot iff it is subscribed |
| Channels.Upsert | aiothingy/__init__.py:54 | `subscribers[cb] = (args, kwargs)`: keys stay unique; a new callback is appended; an existing one keeps its position with the new arguments; every other entry is unchanged |
| Channels.UpsertOnce | aiothingy/__init__.py:51-54 | after subscribing, the callback is present, and every entry for it holds the new arguments |
| Channels.Characteristic.Subscribe | aiothingy/__init__.py:51-54 | `start_notify` is called iff the table was empty, and the table becomes `Upsert` of the old one |
| Channels.SubscribeAll | aiothingy/__init__.py:51-54 | a series of `subscribe` calls keeps the keys unique and grows the table by at most one entry per call |
| Channels.Characteristic.SubscribeEach | aiothingy/__init__.py:51-54 | `subscribe` called over a series one after another: the table becomes `SubscribeAll(...).0` and exactly `SubscribeAll(...).1` `start_notify` calls are logged |
| Channels.NoRestart | aiothingy/__init__.py:51-54 | once the table is nonempty, no series of `subscribe` calls starts notification again |
| Channels.StartsOnce | aiothingy/__init__.py:51-54 | from a fresh characteristic, any nonempty series of `subscribe` calls starts notification exactly once |
| Channels.FanOut | aiothingy/__init__.py:62-63 | the callbacks the loop awaits: at most one per entry, and none exactly when the table is empty |
| Channels.FirstFault | aiothingy/__init__.py:62-63 | the callback whose exception leaves the loop is one that raises |
| Channels.FanOutOrder | aiothingy/__init__.py:62-63 | callbacks are awaited in table order, each with the same event and its own arguments; all are reached unless one raises, and the fan-out stops right after the first that does |
| Channels.FirstFaultRaises | aiothingy/__init__.py:62-63 | the fan-out raises iff some subscriber raises, and what it raises is a raising callback's error |
| Channels.FanOutStops | aiothingy/__init__.py:62-63 | if callback k is the first to raise, exactly k + 1 callbacks are awaited and its error is the one raised |
| Channels.Characteristic.FanOutTo | aiothingy/__init__.py:62-63 | the loop awaits exactly `FanOut` of the table and returns the first raising callback's error, or success |
| Channels.Characteristic.Notify | aiothingy/__init__.py:56-63 | decodes once; a decode error is raised before any callback runs; otherwise it fans out `{type: name, data: value}` as `FanOut` says |

## Behaviour worth noting

- `LED.decode` with a tag byte above 3 falls off the end of the method
  (`aiothingy/__init__.py:158-178`) and returns `None`; it does not raise.
  `Led.Decode` returns `Ok(None)`.
- Colour byte 0 is not rejected: `colors[x[1] - 1]`
  (`aiothingy/__init__.py:168`, `:176`) is `colors[-1]`, which is `'white'`
  (`Led.ColorByteZeroIsWhite`). A colour byte above 7 raises IndexError.
- An int colour given to `encode` (`aiothingy/__init__.py:145-155`) is checked
  only against the byte range of `struct.pack`, not against the table
  (`Led.UncheckedColorNumber`).
- `Characteristic` has no way to unsubscribe and never calls `stop_notify`
  (`aiothingy/__init__.py:37-63`).
- A callback that raises is not isolated (`aiothingy/__init__.py:62-63`): the
  exception leaves `__notify` and the remaining callbacks are not called.
- A decode error in `__notify` (`aiothingy/__init__.py:57`) raises before any
  callback runs.

## Left out

- The `Name` characteristic (`aiothingy/__init__.py:66-75`), including its
  `encode` (:71-72). It only wraps Python's UTF-8 `str.encode` and
  `bytes.decode`, and Unicode is not modelled.
- `Gravity` (`aiothingy/__init__.py:302-313`). It unpacks IEEE-754 floats,
  which are not modelled.
- Sensors.DecodeTemperature: returns the integer and hundredths fields rather
  than Python's float `i + d / 100`. `Sensors.TemperatureValue` gives the sum
  over `real`, an idealisation without float rounding.
- Sensors.DecodePressure: returns the integer fields rather than the float
  sum. `Sensors.PressureValue` gives it over `real`.
- Sensors.DecodeRaw: returns the nine signed words rather than their float
  quotients by 1024, 256 and 16. `Sensors.RawValue` gives them over `real`.
- Sensors.DecodeEuler: returns the signed words rather than their float
  quotients by 65536. `Sensors.FixedPointValue` gives them over `real`.
- Sensors.DecodeHeading: returns the signed word rather than its float
  quotient by 65536. `Sensors.FixedPointValue` gives it over `real`.
- The BLE client (the external `bleak` library) is reduced to a log of calls.
  - The bytes a read returns are a parameter.
  - Transport failures are not modelled: a failed connect, read, write or
    `start_notify` is absent from the model.
  - The handler passed to `start_notify` is not recorded.
- `async`/`await` scheduling is not modelled. Each method runs to completion.
  - Callbacks are identified by number. Their only modelled effect is whether
    they raise: the `faulty` parameter of `Notify`.
  - A `subscribe` made while `__notify` is iterating is not modelled. If it
    adds a new callback, the dict changes size during iteration and Python
    raises RuntimeError. If it re-subscribes a callback already present, the
    size is unchanged, nothing is raised, and entries not yet visited see the
    new arguments.
  - Channels.StartsOnce and Channels.NoRestart hold only for `subscribe` calls
    that run one after another. Two calls interleaved at the
    `await start_notify` (`aiothingy/__init__.py:52-53`) both see an empty dict,
    so both call `start_notify`.
- `Thingy52.__init__` (`aiothingy/__init__.py:6-22`) is modelled only as far
  as the fresh client: `Channels.Thingy52.constructor` starts with an empty
  call log. The default address and the eager construction of every
  characteristic are left out; here each `Characteristic` is built on its own
  around a `Thingy52`.
- The LED convenience methods `off`, `rgb`, `breathe` and `oneshot`
  (`aiothingy/__init__.py:180-199`) are not modelled. Each one writes the dict
  `Led.AsDict` gives for `Off`, `Constant(r, g, b)`, `Breathe(color, intensity,
  delay)` or `Oneshot(color, intensity)`, with defaults white, 100 and 500,
  when `color` is a name from the table; an int colour gives the same dict
  with `Int(color)` under 'color'.
- LED dict values are either `int` or `str`. Other Python types (floats, bools,
  nested values) are not modelled.
- `Characteristic.write` takes an LED dict for every kind. For a kind other
  than the LED, Python raises AttributeError before it looks at the value.
