# String calculators of the first_steps MediaPipe tutorial, in Dafny

This project models the two calculators of tutorial step 1.3. In a MediaPipe graph, a node's `Process` is called once per firing.

- **StringSourceCalculator** is a source node. It has no inputs and one string output `STR`. It keeps an integer counter `t` that starts at 0. While `t < 17`, each firing sends `"JESSICA"` followed by the decimal text of `t`, at timestamp `t`, then increments `t` and returns Ok. Once `t` reaches 17, every firing returns Stop and sends nothing.
- **StringJoinCalculator** has two string inputs, `STR:0` and `STR:1`, and one string output `STR`. The framework synchronizes the inputs by timestamp, so an input with nothing at the firing's timestamp arrives as an empty packet. The join reads an empty input as the text `"<EMPTY>"`. It sends the first string followed by the second, at the input timestamp, and returns Ok.

Files:

- `framework.dfy` (module `Framework`): the parts of the framework these calculators use. A packet is a payload that may be empty, plus a timestamp. There is the firing status (Ok or Stop), an output stream with `AddPacket`, and the port declarations made by `GetContract`.
- `decimal.dfy` (module `Decimal`): `NatToString`, the decimal text `std::to_string` gives for a non-negative integer, and `DecimalValue`, which reads that text back. Both round trips are proved, so `NatToString` is a bijection onto the canonical digit strings.
- `string_source.dfy` (module `StringSource`): the source as a class with the field `t`. `Process` appends to an `OutputStream`. Two specification functions describe it: `Emitted(t)` is the packet sent when the counter is `t`, and `Trace(n)` is the packets of the first `n` firings. The lemmas are about a full run.
- `string_join.dfy` (module `StringJoin`): the join is a pure function. It takes the two input packets and the input timestamp, and returns the firing's outcome and the packets it emits. `JoinStream` is the output stream after a sequence of firings.

## Model

| member | source | states |
|---|---|---|
| `Framework.OutputStream.AddPacket` | first_steps/1_3/string_source_calculator.cpp:35 | adding a packet appends it at the end of the output stream |
| `Decimal.NatToString` | first_steps/1_3/string_source_calculator.cpp:33 | the text of `t` is non-empty, all digits, has no leading zero, is one digit exactly when `t < 10`, and starts with `0` only for 0 |
| `Decimal.DecimalOfNatToString` | first_steps/1_3/string_source_calculator.cpp:33 | reading the decimal text of `n` back gives `n` |
| `Decimal.NatToStringOfDecimal` | first_steps/1_3/string_source_calculator.cpp:33 | every canonical digit string is the text of the number it denotes (the other round trip) |
| `Decimal.NatToStringInjective` | first_steps/1_3/string_source_calculator.cpp:33 | two numbers have the same text if and only if they are equal |
| `StringSource.GetContract` | first_steps/1_3/string_source_calculator.cpp:17-22 | no inputs are declared; exactly one output is declared, `STR`, with a string payload |
| `StringSource.StringSourceCalculator.constructor` | first_steps/1_3/string_source_calculator.cpp:42 | the counter starts at 0 and the invariant `0 <= t <= 17` holds |
| `StringSource.StringSourceCalculator.Process` | first_steps/1_3/string_source_calculator.cpp:24-39 | if `t < 17`: returns Ok, appends exactly the packet `"JESSICA"+decimal(t)` at timestamp `t`, and increments `t`. If `t >= 17`: returns Stop and changes neither `t` nor the stream, so repeated calls after stopping are idempotent. It keeps `0 <= t <= 17`, Stop means `t == 17`, and a stream that holds the first `t` packets still does afterwards |
| `StringSource.EmittedPayload` | first_steps/1_3/string_source_calculator.cpp:33-34 | the packet for counter `t` has timestamp `t` and a payload made of `"JESSICA"` followed by canonical digits that read back as `t` |
| `StringSource.EmittedInjective` | first_steps/1_3/string_source_calculator.cpp:33 | two firings send the same string if and only if their counters are equal |
| `StringSource.TraceAt` | first_steps/1_3/string_source_calculator.cpp:26-27 | after `n` sending firings the stream holds `n` packets, and the packet at index `i` is the one sent with counter `i` |
| `StringSource.TraceStrictlyIncreasing` | first_steps/1_3/string_source_calculator.cpp:34-37 | the source's timestamps strictly increase, as every stream requires |
| `StringSource.FullRun` | first_steps/1_3/string_source_calculator.cpp:26-27 | a full run has exactly 17 packets; packet `i` has timestamp `i` and payload `"JESSICA"+decimal(i)`; all payloads differ; timestamps strictly increase |
| `StringSource.FirstAndLast` | first_steps/1_3/string_source_calculator.cpp:26-33 | the first packet of a full run is `"JESSICA0"` at 0 and the last is `"JESSICA16"` at 16 |
| `StringSource.RunUntilStop` | first_steps/1_3/string_source_calculator.cpp:24-42 | firing a new source until it first returns Stop takes 18 firings and leaves exactly the 17 packets of a full run on the stream |
| `StringJoin.GetContract` | first_steps/1_3/string_join_calculator.cpp:17-26 | two distinct string inputs, `STR:0` and `STR:1`, and one string output `STR` |
| `StringJoin.Process` | first_steps/1_3/string_join_calculator.cpp:29-51 | always returns Ok and emits exactly one packet at the input timestamp. Its payload has length `|s1|+|s2|`, with `s1` as prefix and `s2` as the rest, where each `si` is the input's string, or `"<EMPTY>"` for an empty packet |
| `StringJoin.BothPresent` | first_steps/1_3/string_join_calculator.cpp:32-46 | with both inputs present, the output is their plain concatenation, port 0 first |
| `StringJoin.FirstEmpty` | first_steps/1_3/string_join_calculator.cpp:39-46 | an empty input 0 makes the output `"<EMPTY>"` followed by input 1's string |
| `StringJoin.SecondEmpty` | first_steps/1_3/string_join_calculator.cpp:39-46 | an empty input 1 makes the output input 0's string followed by `"<EMPTY>"` |
| `StringJoin.SynchronizedOutput` | first_steps/1_3/string_join_calculator.cpp:36-49 | when the framework's synchronization holds (at least one input present, and every present packet at the input timestamp), the output has the timestamp of a packet that really arrived, and that packet's string sits at its port's end of the output |
| `StringJoin.JoinStreamAt` | first_steps/1_3/string_join_calculator.cpp:48-49 | over a sequence of firings, each firing adds exactly one packet to `STR`, in firing order, at its own input timestamp |
| `StringJoin.JoinStreamOrdered` | first_steps/1_3/string_join_calculator.cpp:48-49 | firings at strictly increasing input timestamps produce an output stream whose timestamps strictly increase |

## Left out

- The scheduler itself is inside the MediaPipe library, not in these files. That covers timestamp synchronization, input stream closing, flow limiting and the closing of a stopped source's outputs. `RunUntilStop` stands in for the framework's repeated firing of a source. The join states the synchronization guarantee as the predicate `Synchronized`; the lemmas use it, but `Process` does not require it.
- `StringJoin.Process` has no precondition. The source comment says at least one input is always non-empty, but the code does not rely on that. With two empty inputs it would emit `"<EMPTY><EMPTY>"`, and so does the model.
- `StringSource.StringSourceCalculator.Process`: `t` is a C++ `int`, but the class invariant keeps it between 0 and 17. So 32-bit wrap-around and the `-` sign `to_string` writes for negative values never arise and are not modelled.
- Payload types are only modelled as far as the calculators use them. `Set<string>` becomes the `StringPayload` declaration, and `Get<string>` becomes reading the `Some` payload. The framework's type checking of packets against contracts is not modelled.
- These framework mechanisms are not modelled: `MakePacket`, packet ownership and sharing, `Timestamp` sentinel values, `REGISTER_CALCULATOR` and the calculator registry. Packets are modelled as plain values.
- The context does not deliver an input packet's timestamp separately for an empty packet, so the model passes the firing's input timestamp to the join directly.
- The other tutorial calculators and all `main.cpp` programs are not part of this model. The other calculators do floating-point arithmetic, or image processing through OpenCV. The `main.cpp` programs configure graphs, do camera and display I/O, and use threads.
