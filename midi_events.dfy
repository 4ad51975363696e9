/**
 The event model shared by both MIDI processors: the fixed-width integer
 types the plugins compute with and the note event stream the host delivers
 to `process` and accepts back from it.
 */
module MidiEvents {

  /** Rust's `u8`, `i8`, `u32` and `i32`, as ranges of mathematical integers. */
  type u8 = x: int | 0 <= x < 0x100
  type i8 = x: int | -0x80 <= x < 0x80
  type u32 = x: int | 0 <= x < 0x1_0000_0000
  type i32 = x: int | -0x8000_0000 <= x < 0x8000_0000

  datatype Option<T> = None | Some(value: T)

  /**
   A note event as the host delivers it. `timing` is the sample offset inside
   the current processing block, `value` of a controller change is normalised
   to [0, 1], and `Other` stands for every further event kind (pressure,
   pitch bend, ...), which neither processor looks into.
   */
  datatype NoteEvent =
    | NoteOn(timing: u32, voiceId: Option<i32>, channel: u8, note: u8, velocity: real)
    | NoteOff(timing: u32, voiceId: Option<i32>, channel: u8, note: u8, velocity: real)
    | MidiCC(timing: u32, channel: u8, cc: u8, value: real)
    | Other(timing: u32, kind: nat)
}
