# midi-toolies: Fake Sustain and Keyboard Mirror in Dafny

A model of the per-event decision logic of two MIDI plugins, with proofs
about it.

- **Fake Sustain** withholds note-off events while a configurable pedal
  controller is held. It remembers each note's latest note-off, and sends
  them all when the pedal is released.
- **Keyboard Mirror** reflects the note number of every note-on and note-off
  around G#4 (MIDI note 68).

The host's `ProcessContext` becomes an input sequence of events and an
output sequence. The `while let Some(event) = context.next_event()` loop
becomes a Dafny `while` loop that appends to the output.

Files:

- `midi_events.dfy` (module `MidiEvents`): Rust's `u8`/`i8`/`u32`/`i32` as
  integer ranges. `NoteEvent` has `NoteOn`, `NoteOff`, `MidiCC` and an opaque
  `Other` for all remaining event kinds. Velocities and controller values
  are `real`.
- `fake_sustain.dfy` (module `FakeSustain`):
  - The class `FakeSustain` has the two fields the plugin updates in place:
    `notes: map<u8, NoteEvent>` and `sustainHeld: bool`.
  - `Drain` empties `notes` one entry at a time, like `HashMap::drain`.
  - `HandleEvent` is the body of the decision loop. `Process` is the loop.
  - The hash map's drain order is unspecified. So the effect of one event
    is the ghost relation `Step`, not a function. `Step` fixes the new state
    and the events sent. `IsDrainOf` states what the flushed note-offs are,
    but not their order.
  - `Run` chains `Step` over a whole block. `Process` returns ghost
    `states` and `chunks` as a record of the run.
- `keyboard_mirror.dfy` (module `KeyboardMirror`):
  - `MirrorNote` is `mirror_note` as a release build runs it: both `i8`
    subtractions wrap.
  - `MirrorNoteChecked` is the same function as a debug build runs it.
    `None` stands for the overflow panic.
  - `MirrorEvent`/`Mirrored` are the rewrite per event and over a stream.
    `Process` is the loop that computes it.

The parameters `cc` (0 to 127) and `block` (`Pass`/`Block`) are a plain
`Params` input to each call. Their defaults are `DefaultParams` =
controller 64, `Pass`.

### Order of a flush

The drained note-offs are sent inside the `MidiCC` arm
(fake_sustain/src/lib.rs:104-106). The pedal event itself is sent only
after the `match` (lines 118-119). So on a release the pedal event comes
after the flushed note-offs (`Step`, `PedalStep`, `HeldNoteScenario`).

### The `mirror_note` overflow

`note as i8 - MIRROR` and `MIRROR - distance` are `i8` operations.

- For notes 9 to 127 neither overflows, and the result is `136 - note`,
  again in 9 to 127.
- For notes 0 to 8, `MIRROR - distance` is 128 to 136, which is more than
  `i8::MAX`:
  - a debug build panics (`MirrorNoteChecked` is `None`);
  - a release build wraps, and the note sent to the host is 128 to 136
    (`MirrorNoteOverflowEdge`).
- For `u8` values 128 to 255 (not MIDI notes), one of the two subtractions
  always overflows.

Under wrapping, the function is `(136 - note) mod 256` for every `u8`. That
makes it an involution on all of `u8`. The model keeps this behaviour and
does not clamp it. `Process` uses the release (wrapping) semantics.

## Model

| member | source | states |
|---|---|---|
| `FakeSustain.FakeSustain.constructor` | fake_sustain/src/lib.rs:27-35 | a new processor has no pending note-offs, the pedal up, and meets the invariant |
| `FakeSustain.FakeSustain.Drain` | fake_sustain/src/lib.rs:104-106 | `notes` becomes empty; the returned events are exactly the old entries, one per note number, in some order |
| `FakeSustain.FakeSustain.HandleEvent` | fake_sustain/src/lib.rs:89-120 | one event's effect is `Step`. While held, a note-off is stored under its note, overwriting, and nothing is sent; otherwise it is forwarded. A pedal CC sets held to `value > 0.5`, flushes every pending note-off on held-to-released, then forwards the CC iff `Pass`. Any other event is forwarded and the state is unchanged. The invariant is kept |
| `FakeSustain.FakeSustain.Process` | fake_sustain/src/lib.rs:83-124 | handles the block's events in input order; the output is the concatenation of each event's `Step` output, and the final state is the run's last state |
| `FakeSustain.Step` | fake_sustain/src/lib.rs:90-120 | the relation for one pass of the loop body, one case per arm; its contract bounds what one event can do: it sends at most the pending note-offs plus itself, and adds at most one pending entry |
| `FakeSustain.DrainEmitsEachOnce` | fake_sustain/src/lib.rs:104-106 | every pending note-off appears exactly once in a flush, and nothing that was not pending appears |
| `FakeSustain.DrainOrderIrrelevant` | fake_sustain/src/lib.rs:104 | two flushes of the same pending map send the same multiset of events; only the order can differ |
| `FakeSustain.StepPreservesInv` | fake_sustain/src/lib.rs:94-109 | every event keeps the invariant: entries are note-offs under their own note number, and nothing is pending while the pedal is up |
| `FakeSustain.RunPreservesInv` | fake_sustain/src/lib.rs:89-121 | every state along a run from a state meeting the invariant meets it |
| `FakeSustain.RunEmitsOnlyReceived` | fake_sustain/src/lib.rs:89-121 | no event is invented: everything sent, and everything still pending, was received in the block or already pending |
| `FakeSustain.CapacityBound` | fake_sustain/src/lib.rs:31 | a map with only MIDI note numbers (below 128) as keys has at most 128 entries |
| `FakeSustain.RunWithinCapacity` | fake_sustain/src/lib.rs:95 | if the block's note-offs are all MIDI notes, the pending map never exceeds the 128 entries preallocated for it |
| `FakeSustain.PedalStep` | fake_sustain/src/lib.rs:99-114 | on the pedal CC: held afterwards iff `value > 0.5` (0.5 itself is released); exactly the old pending count is flushed, and only on held-to-released; the CC is sent iff `Pass`, and then last, after the flush |
| `FakeSustain.StepDeterministic` | fake_sustain/src/lib.rs:89-120 | two executions of one event from one state reach the same state and send the same events up to order |
| `FakeSustain.PedalUpPassesThrough` | fake_sustain/src/lib.rs:92-120 | with the pedal up and never pressed during the block and `Pass`, the output equals the input and the state is unchanged |
| `FakeSustain.HeldNoteOffsPending` | fake_sustain/src/lib.rs:92-97 | any block of note-offs while the pedal is held sends nothing and keeps the pedal held; the pending notes become the old ones plus every note received |
| `FakeSustain.HeldNoteOffsLatestWins` | fake_sustain/src/lib.rs:95 | after such a block, the entry pending for each note received is the latest note-off for that note |
| `FakeSustain.HeldNoteScenario` | fake_sustain/src/lib.rs:89-121 | press the pedal, play and release note 60, release the pedal: the note-off is sent only with the release, just before the release CC, and the state is back to initial |
| `FakeSustain.HeldNoteBlockedScenario` | fake_sustain/src/lib.rs:111-113 | the same block with `Block`: neither pedal CC is sent; only the note-on and the deferred note-off |
| `FakeSustain.LastNoteOffWinsScenario` | fake_sustain/src/lib.rs:95 | two note-offs for note 60 while held: the later replaces the earlier, and only the later is sent on release |
| `KeyboardMirror.MirrorNote` | keyboard_mirror/src/lib.rs:104-107 | with wrapping `i8` arithmetic around `MIRROR = 68`, the result is `(136 - note) mod 256` for every `u8` |
| `KeyboardMirror.MirrorNoteChecked` | keyboard_mirror/src/lib.rs:104-107 | `mirror_note` in a debug build: it returns exactly for notes 9 to 127, and then returns `136 - note`; for every other `u8` an `i8` subtraction overflows and panics |
| `KeyboardMirror.AsI8` | keyboard_mirror/src/lib.rs:105 | `note as i8` keeps the eight bits: the result equals the input modulo 256 |
| `KeyboardMirror.AsU8` | keyboard_mirror/src/lib.rs:106 | `as u8` keeps the eight bits: the result equals the input modulo 256 |
| `KeyboardMirror.WrapI8` | keyboard_mirror/src/lib.rs:105-106 | a wrapping `i8` subtraction: the result equals the exact difference modulo 256, and is the exact difference when that fits in `i8` |
| `KeyboardMirror.CheckedI8` | keyboard_mirror/src/lib.rs:105-106 | a checked `i8` subtraction against the wrapping one: the debug build panics exactly where the wrap would change the value, and otherwise gives the same result as the release build |
| `KeyboardMirror.MirrorNoteInRange` | keyboard_mirror/src/lib.rs:104-107 | for notes 9 to 127 the mirror is `136 - note` and again in 9 to 127 |
| `KeyboardMirror.MirrorNoteFixedPoint` | keyboard_mirror/src/lib.rs:19 | among MIDI notes, exactly the axis 68 (G#4) mirrors to itself |
| `KeyboardMirror.MirrorNoteInvolution` | keyboard_mirror/src/lib.rs:104-107 | mirroring twice gives back the note, for every `u8` |
| `KeyboardMirror.MirrorNoteInvertsIntervals` | keyboard_mirror/src/lib.rs:105-106 | for notes 9 to 127, the mirrored interval is the negated interval |
| `KeyboardMirror.MirrorNoteCheckedDefined` | keyboard_mirror/src/lib.rs:104-107 | in a debug build `mirror_note` returns iff the note is 9 to 127, and then agrees with the release result |
| `KeyboardMirror.MirrorNoteOverflowEdge` | keyboard_mirror/src/lib.rs:105-106 | for notes 0 to 8 the distance fits but `MIRROR - distance` exceeds 127; the release result is 128 to 136 |
| `KeyboardMirror.MirrorEvent` | keyboard_mirror/src/lib.rs:66-78 | a note-on or note-off keeps its kind and every field except `note`, which is mirrored; any other event is unchanged |
| `KeyboardMirror.Mirrored` | keyboard_mirror/src/lib.rs:64-79 | defined event by event from the end of the stream; it has one output event per input event, at the same index, and each is the rewrite of its input |
| `KeyboardMirror.Process` | keyboard_mirror/src/lib.rs:58-83 | the loop sends exactly the stream `Mirrored(input)` |
| `KeyboardMirror.MirrorEventInvolution` | keyboard_mirror/src/lib.rs:66-75 | rewriting an event twice gives back the event |
| `KeyboardMirror.MirroredInvolution` | keyboard_mirror/src/lib.rs:64-79 | running the mirror twice over a stream gives back the stream |
| `KeyboardMirror.MirroredKeepsKinds` | keyboard_mirror/src/lib.rs:76-78 | each output event has its input's kind and timing; non-note events come out unchanged |

## Left out

- Plugin metadata and host integration: `Plugin` constants, the `ClapPlugin`/`Vst3Plugin` impls and the `nih_export_*` macros. They declare the plugin to the host and hold no logic.
- Parameter plumbing (`Params` derive, `IntParam`/`EnumParam`, `Arc`). `cc` and `block` are a plain `Params` value, fixed for one `Process` call. The source reads them anew for each event, so host automation that changes a parameter in the middle of a block (a concurrent update) is not modelled.
- `initialize` and `reset` are empty stubs, the audio `Buffer`/`AuxiliaryBuffers` are unused, and `process` always returns `ProcessStatus::Normal`. None of them is modelled.
- `HashMap::with_capacity(128)`: memory allocation is not modelled. `RunWithinCapacity` proves instead that the map never needs more than 128 entries for MIDI notes.
- `f32` semantics of the controller value: it is a `real`, and the threshold is the exact comparison `> 0.5`.
- The hash map's iteration order in `drain()`: it is left open. `IsDrainOf` fixes the flushed content and multiplicities, and nothing about their order.
- The other `NoteEvent` variants of the host library are one opaque `Other`. Both processors only pass them on.
- `KeyboardMirror.Process`: uses the release (wrapping) semantics of `mirror_note`. A debug build's panic in the middle of a block is modelled for a single note only, by `MirrorNoteChecked`, not as an aborted stream.
